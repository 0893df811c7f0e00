/** The kernel's own data: process records linked through pointers, message buffers written in
    place, and the loops of the scheduler, the deadlock check and the sender queues. Every method
    is tied to the value-level step of KernelModel. */
module Kernel {
  import opened Rendezvous
  import opened WaitGraph
  import opened NetInvariant
  import opened Scheduler
  import opened KernelModel
  import opened SenderLists

  const MSG_SEND := 0
  const MSG_RECEIVE := 1

  /** How the system call ends: it returns, or an ASSERT or CRITICAL stops the machine. */
  datatype SysResult = Done | AssertFailed | CriticalStop

  class Message {
    var source: int
    var kind: int
    var body: Body
    /** The process blocked on this buffer, while one is. */
    ghost var holder: int

    function Value(): Msg
      reads this
    {
      Msg(source, kind, body)
    }

    constructor (m: Msg)
      ensures Value() == m
    {
      source, kind, body := m.source, m.kind, m.body;
    }

    /** memcpy of a whole MESSAGE. */
    method CopyFrom(from: Message)
      modifies this`source, this`kind, this`body
      ensures Value() == old(from.Value())
    {
      source, kind, body := from.source, from.kind, from.body;
    }
  }

  /** `sending` and `recving` are the bits MSG_SENDING and MSG_RECVING of `flags`. */
  class Process {
    const id: nat
    var ticks: int
    var priority: int
    var sending: bool
    var recving: bool
    var msg: Message?
    var recvFrom: int
    var sendTo: int
    var haveIntMsg: bool
    var currentSend: Process?
    var nextSend: Process?

    constructor (id: nat, priority: int)
      ensures IsBlank(this, id, priority)
    {
      this.id := id;
      this.ticks, this.priority := priority, priority;
      sending, recving, msg, haveIntMsg := false, false, null, false;
      recvFrom, sendTo := 0, 0;
      currentSend, nextSend := null, null;
    }
  }

  /** A freshly initialised process record. */
  ghost predicate IsBlank(p: Process, id: nat, priority: int)
    reads p
  {
    && p.id == id && p.ticks == priority && p.priority == priority
    && !p.sending && !p.recving && p.msg == null && !p.haveIntMsg && p.currentSend == null && p.nextSend == null
  }

  class Kernel {
    const procTable: seq<Process>
    var processReady: Process
    var clock: int
    ghost var queues: seq<seq<nat>>
    ghost var log: seq<Event>

    /** `init_process_main`: one record per task, everybody ready with a full quantum. */
    constructor (priority: seq<int>)
      requires |priority| > 0
      ensures Valid() && Abs() == Boot(priority) && fresh(procTable)
    {
      var table: seq<Process> := [];
      for i := 0 to |priority|
        invariant |table| == i
        invariant forall j :: 0 <= j < i ==> IsBlank(table[j], j, priority[j]) && fresh(table[j])
      {
        var p := new Process(i, priority[i]);
        table := table + [p];
      }
      procTable := table;
      processReady := table[0];
      clock := 0;
      queues := seq(|priority|, _ => []);
      log := [];
      new;
      BlankIsBoot(priority);
    }

    lemma BlankIsBoot(priority: seq<int>)
      requires |procTable| == |priority| > 0 && processReady == procTable[0] && clock == 0 && log == []
      requires queues == seq(|priority|, _ => [])
      requires forall j :: 0 <= j < |priority| ==> IsBlank(procTable[j], j, priority[j])
      ensures Valid() && Abs() == Boot(priority)
    {
      BootInv(priority);
      BlankIsSound(priority);
      assert Statuses() == Initial(|priority|).status;
      assert Pendings() == Initial(|priority|).pending;
      assert Ticks() == priority && Priorities() == priority;
      ValidAs(Boot(priority));
    }

    lemma BlankIsSound(priority: seq<int>)
      requires |procTable| == |priority| > 0 && processReady == procTable[0]
      requires queues == seq(|priority|, _ => [])
      requires forall j :: 0 <= j < |priority| ==> IsBlank(procTable[j], j, priority[j])
      ensures Sound()
    {
      assert forall d :: 0 <= d < |queues| ==> List(Heads()[d], Links(), queues[d]);
    }

    // ------------------------------------------------------------ representation

    /** P_ANY and P_NO_TASK depend on the number of tasks. */
    function PAny(): int { |procTable| + 100 }

    function PNoTask(): int { |procTable| + 200 }

    /** What a receive asks for; an id that is none of these is out of range. */
    predicate IsSource(src: int) {
      0 <= src < |procTable| || src == PAny() || src == MSG_SOURCE_INTERRUPT
    }

    function SourceOf(src: int): Source {
      if src == PAny() then AnySource
      else if 0 <= src < |procTable| then Task(src)
      else Interrupt
    }

    ghost predicate Wired()
      reads this`processReady
    {
      && (forall i :: 0 <= i < |procTable| ==> procTable[i].id == i)
      && InTable(processReady)
    }

    ghost predicate InTable(p: Process) {
      p.id < |procTable| && procTable[p.id] == p
    }

    /** A link is null or points into the table. */
    ghost predicate LinkOk(p: Process?) {
      p != null ==> InTable(p)
    }

    ghost function IdOf(p: Process?): int {
      if p == null then NULL else p.id
    }

    ghost predicate LinksOk()
      reads procTable
    {
      forall i :: 0 <= i < |procTable| ==> LinkOk(procTable[i].currentSend) && LinkOk(procTable[i].nextSend)
    }

    ghost function Heads(): seq<int>
      reads procTable
    {
      seq(|procTable|, i requires 0 <= i < |procTable| reads procTable => IdOf(procTable[i].currentSend))
    }

    ghost function Links(): seq<int>
      reads procTable
    {
      seq(|procTable|, i requires 0 <= i < |procTable| reads procTable => IdOf(procTable[i].nextSend))
    }

    /** The linked lists are the queues. */
    ghost predicate Chained()
      reads this`queues, procTable
    {
      LinksOk() && |queues| == |procTable| && Lists(Heads(), Links(), queues)
    }

    /** flags is 0, SENDING or RECVING, never both; a message is held exactly while blocked. */
    ghost predicate FlagsOk(p: Process)
      reads p
    {
      && !(p.sending && p.recving)
      && (p.msg != null <==> p.sending || p.recving)
      && (p.sending ==> 0 <= p.sendTo < |procTable|)
      && (p.recving ==> IsSource(p.recvFrom))
    }

    ghost predicate AllFlagsOk()
      reads procTable
    {
      forall i :: 0 <= i < |procTable| ==> FlagsOk(procTable[i])
    }

    /** Two blocked processes never hold the same message buffer. */
    ghost predicate BuffersApart()
      reads procTable, Buffers()
    {
      forall i :: 0 <= i < |procTable| && procTable[i].msg != null ==> procTable[i].msg.holder == i
    }

    ghost function Buffers(): set<object>
      reads procTable
    {
      set i | 0 <= i < |procTable| && procTable[i].msg != null :: procTable[i].msg as object
    }

    ghost function StatusOf(p: Process): Status
      reads p, p.msg
    {
      if p.sending && p.msg != null && p.sendTo >= 0 then Sending(p.sendTo, p.msg.Value())
      else if p.recving then Receiving(SourceOf(p.recvFrom))
      else Ready
    }

    ghost function NetOf(): Net
      reads this`queues, procTable, Buffers()
    {
      Net(Statuses(), Pendings(), queues)
    }

    ghost function Statuses(): seq<Status>
      reads procTable, Buffers()
    {
      seq(|procTable|, i requires 0 <= i < |procTable| reads procTable, Buffers() => StatusOf(procTable[i]))
    }

    ghost function Pendings(): seq<bool>
      reads procTable
    {
      seq(|procTable|, i requires 0 <= i < |procTable| reads procTable => procTable[i].haveIntMsg)
    }

    ghost function Ticks(): seq<int>
      reads procTable
    {
      seq(|procTable|, i requires 0 <= i < |procTable| reads procTable => procTable[i].ticks)
    }

    ghost function Priorities(): seq<int>
      reads procTable
    {
      seq(|procTable|, i requires 0 <= i < |procTable| reads procTable => procTable[i].priority)
    }

    ghost function SchedOf(): Sched
      reads this`processReady, procTable
    {
      Sched(Ticks(), Priorities(), processReady.id)
    }

    ghost function Abs(): Sys
      reads this, procTable, Buffers()
    {
      Sys(NetOf(), SchedOf(), clock, log)
    }

    /** The representation is sound, whatever the state means. */
    ghost predicate Sound()
      reads this`queues, this`processReady, procTable, Buffers()
    {
      Wired() && Chained() && AllFlagsOk() && BuffersApart()
    }

    ghost predicate Valid()
      reads this, procTable, Buffers()
    {
      Sound() && CoreInv(Abs())
    }

    ghost function ReadyFlags(): seq<bool>
      reads procTable
    {
      seq(|procTable|, i requires 0 <= i < |procTable| reads procTable =>
        !procTable[i].sending && !procTable[i].recving)
    }

    // ------------------------------------------------------------ scheduler

    method ProcessSchedule()
      requires Wired() && Schedule(ReadyFlags(), SchedOf()).Some?
      modifies this`processReady, procTable`ticks
      ensures Wired()
      ensures SchedOf() == Schedule(old(ReadyFlags()), old(SchedOf())).value
      ensures forall i :: 0 <= i < |procTable| && (procTable[i].sending || procTable[i].recving) ==>
        procTable[i].ticks == old(procTable[i].ticks)
    {
      ScheduleTicks(ReadyFlags(), SchedOf());
      var biggestTick := 0;
      ghost var ready, s := ReadyFlags(), SchedOf();
      ghost var refilled := false;
      while biggestTick == 0
        invariant Wired() && ReadyFlags() == ready && biggestTick >= 0
        invariant Priorities() == s.priority
        invariant biggestTick == 0 ==>
          && Ticks() == (if refilled then Refill(ready, s.ticks, s.priority) else s.ticks)
          && (refilled ==> Pick(ready, s.ticks, |ready|).None?)
        invariant biggestTick != 0 ==> SchedOf() == Schedule(ready, s).value
        decreases biggestTick == 0, if refilled then 0 else 1
      {
        biggestTick := Scan();
        assert SchedOf().ticks == Ticks();
        if biggestTick == 0 {
          RefillTicks();
          refilled := true;
        }
      }
      forall i | 0 <= i < |procTable| && (procTable[i].sending || procTable[i].recving)
        ensures procTable[i].ticks == old(procTable[i].ticks)
      {
        assert !ready[i] && SchedOf().ticks[i] == s.ticks[i];
      }
    }

    /** The first `for` loop: choose among the ready processes. */
    method Scan() returns (biggestTick: int)
      requires Wired()
      modifies this`processReady
      ensures Wired()
      ensures var best := Pick(ReadyFlags(), Ticks(), |procTable|);
        && biggestTick == Most(Ticks(), best)
        && (best.Some? ==> processReady == procTable[best.value] && biggestTick > 0)
        && (best.None? ==> processReady == old(processReady))
    {
      biggestTick := 0;
      for i := 0 to |procTable|
        invariant Wired()
        invariant var best := Pick(ReadyFlags(), Ticks(), i);
          && biggestTick == Most(Ticks(), best)
          && (best.Some? ==> processReady == procTable[best.value] && biggestTick > 0)
          && (best.None? ==> processReady == old(processReady))
      {
        var p := procTable[i];
        if !p.sending && !p.recving {
          if p.ticks > biggestTick {
            biggestTick := p.ticks;
            processReady := p;
          }
        }
      }
    }

    /** The second `for` loop: give every ready process its priority in ticks again. */
    method RefillTicks()
      requires Wired()
      modifies procTable`ticks
      ensures Ticks() == Refill(ReadyFlags(), old(Ticks()), Priorities())
    {
      for i := 0 to |procTable|
        invariant forall j :: 0 <= j < i ==>
          procTable[j].ticks == if ReadyFlags()[j] then procTable[j].priority else old(procTable[j].ticks)
        invariant forall j :: i <= j < |procTable| ==> procTable[j].ticks == old(procTable[j].ticks)
      {
        var p := procTable[i];
        if !p.sending && !p.recving {
          p.ticks := p.priority;
        }
      }
    }

    // ------------------------------------------------------------ deadlock check

    /** `dead_lock`: follow the senders from dest; true when the walk comes to src. The names the
        source prints are those of `cycle`: the walk from dest to src, which the attempted send
        would close. */
    method DeadLock(src: nat, dest: nat) returns (dead: bool, cycle: seq<nat>)
      requires Wired() && AllFlagsOk() && Acyclic(NetOf())
      requires src < |procTable| && dest < |procTable| && src != dest
      requires NetOf().status[src].Ready?
      ensures dead <==> Reaches(NetOf(), dest, src)
      ensures dead ==> WalkBetween(NetOf(), cycle, dest, src)
      ensures dead ==> forall i :: 0 <= i < |cycle| - 1 ==> procTable[cycle[i]].msg != null
    {
      ghost var net := NetOf();
      var proc := procTable[dest];
      ghost var walk: seq<nat> := [dest];
      while true
        invariant NetOf() == net && Walk(net, walk) && walk[0] == dest && forall i :: 0 <= i < |walk| ==> walk[i] != src
        invariant proc == procTable[walk[|walk| - 1]]
        decreases |procTable| - |walk|
      {
        WalkBound(net, walk);
        if proc.sending {
          assert net.SendsTo(walk[|walk| - 1], proc.sendTo);
          ghost var longer: seq<nat> := walk + [proc.sendTo];
          Extended(net, walk, proc.sendTo);
          WalkBound(net, longer);
          if proc.sendTo == src {
            assert WalkBetween(net, longer, dest, src);
            cycle := PrintCycle(src, dest, longer);
            assert NetOf() == net;
            return true, cycle;
          }
          proc := procTable[proc.sendTo];
          walk := longer;
        } else {
          Complete(net, walk, src);
          return false, [];
        }
      }
    }

    /** The printing loop of `dead_lock`. */
    method PrintCycle(src: nat, dest: nat, ghost walk: seq<nat>) returns (cycle: seq<nat>)
      requires Wired() && AllFlagsOk()
      requires src < |procTable| && dest < |procTable|
      requires WalkBetween(NetOf(), walk, dest, src) && forall i :: 0 <= i < |walk| - 1 ==> walk[i] != src
      ensures cycle == walk
      ensures forall i :: 0 <= i < |cycle| - 1 ==> procTable[cycle[i]].msg != null
    {
      cycle := [];
      ghost var net := NetOf();
      var proc := procTable[dest];
      while proc != procTable[src]
        invariant |cycle| < |walk| && cycle == walk[..|cycle|] && proc == procTable[walk[|cycle|]]
        invariant forall i :: 0 <= i < |cycle| ==> procTable[cycle[i]].msg != null
        decreases |walk| - |cycle|
      {
        assert net.SendsTo(walk[|cycle|], walk[|cycle| + 1]);
        cycle := cycle + [proc.id];
        assert proc.msg != null;
        proc := procTable[proc.sendTo];
      }
      assert walk[|cycle|] == src;
      cycle := cycle + [proc.id];
    }

    // ------------------------------------------------------------ sender queues

    ghost function SendTos(): seq<int>
      reads procTable
    {
      seq(|procTable|, i requires 0 <= i < |procTable| reads procTable => procTable[i].sendTo)
    }

    /** p->next_send = q, and what that does to the picture. */
    method SetNext(p: Process, q: Process?)
      requires Wired() && LinksOk() && InTable(p) && LinkOk(q)
      modifies p`nextSend
      ensures Wired() && LinksOk()
      ensures Heads() == old(Heads()) && Links() == old(Links())[p.id := IdOf(q)]
      ensures SendTos() == old(SendTos())
    {
      p.nextSend := q;
    }

    /** p->current_send = q, and what that does to the picture. */
    method SetCurrent(p: Process, q: Process?)
      requires Wired() && LinksOk() && InTable(p) && LinkOk(q)
      modifies p`currentSend
      ensures Wired() && LinksOk()
      ensures Heads() == old(Heads())[p.id := IdOf(q)] && Links() == old(Links())
      ensures SendTos() == old(SendTos())
    {
      p.currentSend := q;
    }

    /** One step along a list. */
    lemma NextNode(p: Process, q: seq<nat>, k: nat)
      requires Wired() && LinksOk() && InTable(p)
      requires List(At(q, 0), Links(), q) && k < |q| && p.id == q[k]
      ensures IdOf(p.nextSend) == At(q, k + 1) && LinkOk(p.nextSend)
    {
      assert Links()[q[k]] == At(q, k + 1);
    }

    ghost predicate InNoQueue(id: nat)
      reads this`queues
    {
      forall d, i :: 0 <= d < |queues| && 0 <= i < |queues[d]| ==> queues[d][i] != id
    }

    /** The tail search of `msg_send`. */
    method FindTail(first: Process, ghost q: seq<nat>) returns (p: Process)
      requires Wired() && LinksOk() && InTable(first) && List(first.id, Links(), q)
      ensures q != [] && p.id == q[|q| - 1] && InTable(p)
    {
      p := first;
      ghost var k := 0;
      NextNode(p, q, k);
      while p.nextSend != null
        invariant k < |q| && InTable(p) && p.id == q[k] && LinkOk(p.nextSend) && IdOf(p.nextSend) == At(q, k + 1)
        decreases |q| - k
      {
        p := p.nextSend;
        k := k + 1;
        NextNode(p, q, k);
      }
    }

    /** The queue part of `msg_send`: walk to the tail of the receiver's list and hang the sender
        there. */
    method HangLast(pDest: Process, pSend: Process, ghost q: seq<nat>)
      requires Wired() && LinksOk() && InTable(pDest) && InTable(pSend)
      requires List(IdOf(pDest.currentSend), Links(), q) && (q != [] ==> q[|q| - 1] < |procTable|)
      modifies pDest`currentSend, procTable`nextSend
      ensures Wired() && LinksOk()
      ensures Heads() == HeadsWith(old(Heads()), q, pDest.id, pSend.id)
      ensures Links() == LinksWith(old(Links()), q, pSend.id)
    {
      if pDest.currentSend != null {
        var p := FindTail(pDest.currentSend, q);
        SameLinks();
        SetNext(p, pSend);
      } else {
        SetCurrent(pDest, pSend);
      }
      SetNext(pSend, null);
    }

    method EnqueueSender(pDest: Process, pSend: Process)
      requires Wired() && Chained() && Homed(SendTos(), queues) && InTable(pDest) && InTable(pSend)
      requires pSend.sendTo == pDest.id && pSend.id !in queues[pDest.id]
      modifies this`queues, pDest`currentSend, procTable`nextSend
      ensures Wired() && Chained()
      ensures queues == old(queues)[pDest.id := old(queues)[pDest.id] + [pSend.id]]
    {
      ghost var d, q := pDest.id, queues[pDest.id];
      Append(Heads(), Links(), queues, SendTos(), d, pSend.id);
      assert Heads()[d] == IdOf(pDest.currentSend);
      HangLast(pDest, pSend, q);
      queues := queues[d := q + [pSend.id]];
    }

    /** The search loop of `msg_recv` for one particular sender. */
    method FindSender(pRecv: Process, src: nat, ghost q: seq<nat>, ghost at: nat)
      returns (pSrc: Process, pPrev: Process?, ghost k: nat)
      requires Wired() && LinksOk() && InTable(pRecv) && List(IdOf(pRecv.currentSend), Links(), q)
      requires at < |q| && q[at] == src
      ensures k < |q| && k <= at && q[k] == src && InTable(pSrc) && pSrc.id == src
      ensures IdOf(pPrev) == (if k == 0 then NULL else q[k - 1]) && LinkOk(pPrev)
    {
      k := 0;
      pPrev := null;
      var p := pRecv.currentSend;
      while p != null
        invariant LinkOk(p) && IdOf(p) == At(q, k)
        invariant k <= at
        invariant IdOf(pPrev) == (if k == 0 then NULL else q[k - 1]) && LinkOk(pPrev)
        decreases |q| - k
      {
        if p.id == src {
          return p, pPrev, k;
        }
        NextNode(p, q, k);
        pPrev := p;
        p := p.nextSend;
        k := k + 1;
      }
      assert false;
      pSrc := pRecv;
    }

    /** The unlinking step of `msg_recv`. */
    method TakeOut(pRecv: Process, pSrc: Process, pPrev: Process?, ghost q: seq<nat>, ghost k: nat)
      requires Wired() && LinksOk() && InTable(pRecv) && InTable(pSrc) && LinkOk(pPrev)
      requires List(IdOf(pRecv.currentSend), Links(), q) && k < |q| && q[k] == pSrc.id
      requires NoDuplicates(q) && (k > 0 ==> IdOf(pPrev) == q[k - 1])
      modifies pRecv`currentSend, procTable`nextSend
      ensures Wired() && LinksOk()
      ensures k > 0 ==> q[k - 1] < |procTable|
      ensures Heads() == HeadsWithout(old(Heads()), old(Links()), q, pRecv.id, k)
      ensures Links() == LinksWithout(old(Links()), q, k)
    {
      NextNode(pSrc, q, k);
      assert Links()[pSrc.id] == IdOf(pSrc.nextSend);
      assert k > 0 ==> q[k] != q[0];
      if pSrc == pRecv.currentSend {
        SetCurrent(pRecv, pSrc.nextSend);
      } else {
        SetNext(pPrev, pSrc.nextSend);
      }
      SetNext(pSrc, null);
    }

    method UnlinkSender(pRecv: Process, pSrc: Process, pPrev: Process?, ghost k: nat)
      requires Wired() && Chained() && Homed(SendTos(), queues) && InTable(pRecv) && InTable(pSrc) && LinkOk(pPrev)
      requires k < |queues[pRecv.id]| && queues[pRecv.id][k] == pSrc.id
      requires k > 0 ==> IdOf(pPrev) == queues[pRecv.id][k - 1]
      modifies this`queues, pRecv`currentSend, procTable`nextSend
      ensures Wired() && Chained()
      ensures queues == old(queues)[pRecv.id := Without(old(queues)[pRecv.id], pSrc.id)]
    {
      ghost var d, q := pRecv.id, queues[pRecv.id];
      WithoutAt(q, k);
      assert Heads()[d] == IdOf(pRecv.currentSend);
      Unlink(Heads(), Links(), queues, SendTos(), d, k);
      TakeOut(pRecv, pSrc, pPrev, q, k);
      queues := queues[d := Without(q, pSrc.id)];
    }

    // ------------------------------------------------------------ what a write leaves alone

    twostate lemma SameLinks()
      requires forall i :: 0 <= i < |procTable| ==>
        procTable[i].currentSend == old(procTable[i].currentSend) && procTable[i].nextSend == old(procTable[i].nextSend)
      ensures Heads() == old(Heads()) && Links() == old(Links())
    {
    }

    twostate lemma SameTimes()
      requires forall i :: 0 <= i < |procTable| ==>
        procTable[i].ticks == old(procTable[i].ticks) && procTable[i].priority == old(procTable[i].priority)
      ensures Ticks() == old(Ticks()) && Priorities() == old(Priorities())
    {
    }

    twostate lemma SamePendings()
      requires forall i :: 0 <= i < |procTable| ==> procTable[i].haveIntMsg == old(procTable[i].haveIntMsg)
      ensures Pendings() == old(Pendings())
    {
    }

    /** Blocked processes and their buffers are as they were. */
    twostate lemma SameFlags()
      requires old(AllFlagsOk() && BuffersApart())
      requires forall i :: 0 <= i < |procTable| ==>
        && procTable[i].sending == old(procTable[i].sending) && procTable[i].recving == old(procTable[i].recving)
        && procTable[i].recvFrom == old(procTable[i].recvFrom) && procTable[i].sendTo == old(procTable[i].sendTo)
        && procTable[i].msg == old(procTable[i].msg)
        && (procTable[i].msg != null ==> procTable[i].msg.holder == old(procTable[i].msg.holder))
      ensures AllFlagsOk() && BuffersApart()
    {
    }

    twostate lemma SameStatuses()
      requires forall i :: 0 <= i < |procTable| ==> StatusOf(procTable[i]) == old(StatusOf(procTable[i]))
      ensures Statuses() == old(Statuses())
    {
    }

    // ------------------------------------------------------------ blocking and waking

    /** `process_schedule` changes nothing but ticks and the running process. */
    method Reschedule()
      requires Sound() && Schedule(ReadyFlags(), SchedOf()).Some?
      modifies this`processReady, procTable`ticks
      ensures Sound() && Statuses() == old(Statuses()) && Pendings() == old(Pendings())
      ensures SchedOf() == Schedule(old(ReadyFlags()), old(SchedOf())).value
    {
      ProcessSchedule();
      SameLinks();
      SamePendings();
      SameStatuses();
    }

    method Block(proc: Process)
      requires Sound() && InTable(proc) && (proc.sending || proc.recving)
      requires Schedule(ReadyFlags(), SchedOf()).Some?
      modifies this`processReady, procTable`ticks
      ensures Sound() && Statuses() == old(Statuses()) && Pendings() == old(Pendings())
      ensures SchedOf() == Schedule(old(ReadyFlags()), old(SchedOf())).value
    {
      assert proc.sending || proc.recving;
      Reschedule();
    }

    method Unblock(proc: Process)
      requires !proc.sending && !proc.recving
    {
      assert !proc.sending && !proc.recving;
    }

    // ------------------------------------------------------------ the two halves of msg_send

    /** The direct branch: copy the message into the waiting receiver's buffer and wake it. */
    method HandOver(pDest: Process, msg: Message)
      requires Sound() && InTable(pDest) && pDest.recving && msg !in Buffers()
      modifies pDest`recving, pDest`msg, pDest`recvFrom, pDest.msg`source, pDest.msg`kind, pDest.msg`body
      ensures Sound()
      ensures Statuses() == old(Statuses())[pDest.id := Ready]
      ensures Pendings() == old(Pendings()) && SchedOf() == old(SchedOf())
      ensures old(pDest.msg).Value() == old(msg.Value())
    {
      assert pDest.msg != null;
      pDest.msg.CopyFrom(msg);
      SameStatuses();
      EndReceive(pDest);
    }

    /** The waiting receiver has its message and goes on. */
    method EndReceive(proc: Process)
      requires Sound() && InTable(proc) && proc.recving
      modifies proc`recving, proc`msg, proc`recvFrom
      ensures Sound() && Statuses() == old(Statuses())[proc.id := Ready]
      ensures Pendings() == old(Pendings()) && SchedOf() == old(SchedOf())
    {
      proc.msg := null;
      proc.recving := false;
      proc.recvFrom := PNoTask();
      Unblock(proc);
      SameLinks();
      SameTimes();
      SamePendings();
      assert Statuses() == old(Statuses())[proc.id := Ready];
    }

    /** The blocking branch, first part: the sender keeps its message and notes whom it is for. */
    method RecordSend(pSend: Process, dest: nat, msg: Message)
      requires Sound() && InTable(pSend) && dest < |procTable| && !pSend.sending && !pSend.recving
      requires msg !in Buffers()
      modifies this`log, pSend`sending, pSend`sendTo, pSend`msg, msg`holder
      ensures Sound() && pSend.sending && pSend.msg == msg && pSend.sendTo == dest
      ensures log == old(log) + [Sent(pSend.id, dest, msg.Value())]
      ensures Statuses() == old(Statuses())[pSend.id := Sending(dest, msg.Value())]
      ensures Pendings() == old(Pendings()) && SchedOf() == old(SchedOf())
      ensures SendTos() == old(SendTos())[pSend.id := dest]
    {
      log := log + [Sent(pSend.id, dest, msg.Value())];
      msg.holder := pSend.id;
      SameStatuses();
      BeginSend(pSend, dest, msg);
    }

    method BeginSend(pSend: Process, dest: nat, msg: Message)
      requires Sound() && InTable(pSend) && dest < |procTable| && !pSend.sending && !pSend.recving
      requires msg.holder == pSend.id
      modifies pSend`sending, pSend`sendTo, pSend`msg
      ensures Sound() && pSend.sending && pSend.msg == msg && pSend.sendTo == dest
      ensures Statuses() == old(Statuses())[pSend.id := Sending(dest, msg.Value())]
      ensures Pendings() == old(Pendings()) && SchedOf() == old(SchedOf())
      ensures SendTos() == old(SendTos())[pSend.id := dest]
    {
      pSend.sending := true;
      pSend.sendTo := dest;
      pSend.msg := msg;
      SameLinks();
      SameTimes();
      SamePendings();
      assert Statuses() == old(Statuses())[pSend.id := Sending(dest, msg.Value())];
    }

    lemma ValidAs(s: Sys)
      requires Sound() && CoreInv(s)
      requires NetOf() == s.net && SchedOf() == s.sched && clock == s.clock && log == s.log
      ensures Valid() && Abs() == s
    {
    }

    /** The tests on `flags` and `recv_from` decide who waits for what. */
    lemma WhoWaits(proc: Process, sender: nat)
      requires Sound() && InTable(proc) && sender < |procTable|
      ensures NetOf().WaitsFor(proc.id, sender) <==> proc.recving && (proc.recvFrom == sender || proc.recvFrom == PAny())
      ensures NetOf().WaitsForInterrupt(proc.id) <==>
        (proc.recving && (proc.recvFrom == MSG_SOURCE_INTERRUPT || proc.recvFrom == PAny()))
    {
      assert FlagsOk(proc) && Statuses()[proc.id] == StatusOf(proc);
    }

    lemma QueuesAreHomed()
      requires Sound() && QueuesExact(NetOf())
      ensures Homed(SendTos(), queues)
    {
      forall d, i | 0 <= d < |queues| && 0 <= i < |queues[d]|
        ensures queues[d][i] < |SendTos()| && SendTos()[queues[d][i]] == d
      {
        assert queues[d][i] in NetOf().queue[d];
        assert NetOf().SendsTo(queues[d][i], d);
      }
    }

    /** The readiness the scheduler sees is the readiness of the rendezvous state. */
    lemma ReadyFlagsOfNet()
      requires Sound()
      ensures ReadyFlags() == ReadyOf(NetOf())
    {
      assert forall i :: 0 <= i < |procTable| ==> FlagsOk(procTable[i]);
    }

    /** The direct branch of `msg_send`. */
    method SendDirect(pSend: Process, pDest: Process, msg: Message)
      requires Sound() && InTable(pSend) && InTable(pDest) && pDest.recving && msg !in Buffers()
      requires NetOf().WaitsFor(pDest.id, pSend.id)
      modifies this`log, pDest`recving, pDest`msg, pDest`recvFrom, pDest.msg`source, pDest.msg`kind, pDest.msg`body
      ensures Sound() && SchedOf() == old(SchedOf())
      ensures NetOf() == SendNet(old(NetOf()), pSend.id, pDest.id, old(msg.Value()))
      ensures log == old(log) + [Sent(pSend.id, pDest.id, old(msg.Value()))] + [Got(pDest.id, pSend.id, old(msg.Value()))]
      ensures old(pDest.msg).Value() == old(msg.Value())
    {
      log := log + [Sent(pSend.id, pDest.id, msg.Value())] + [Got(pDest.id, pSend.id, msg.Value())];
      HandOver(pDest, msg);
    }

    /** The blocking branch of `msg_send` up to the call of `block`. */
    method SendQueued(pSend: Process, pDest: Process, msg: Message)
      requires Sound() && Homed(SendTos(), queues) && InTable(pSend) && InTable(pDest) && msg !in Buffers()
      requires !pSend.sending && !pSend.recving && InNoQueue(pSend.id)
      requires !NetOf().WaitsFor(pDest.id, pSend.id)
      modifies this`log, this`queues, procTable`nextSend
      modifies pDest`currentSend, pSend`sending, pSend`sendTo, pSend`msg, msg`holder
      ensures Sound() && SchedOf() == old(SchedOf()) && pSend.sending && pSend.msg == msg
      ensures NetOf() == SendNet(old(NetOf()), pSend.id, pDest.id, old(msg.Value()))
      ensures log == old(log) + [Sent(pSend.id, pDest.id, old(msg.Value()))]
    {
      ghost var statuses := Statuses()[pSend.id := Sending(pDest.id, msg.Value())];
      ghost var pendings, queued := Pendings(), queues[pDest.id := queues[pDest.id] + [pSend.id]];
      assert SendNet(NetOf(), pSend.id, pDest.id, msg.Value()) == Net(statuses, pendings, queued);
      NewHome(SendTos(), queues, pSend.id, pDest.id);
      RecordSend(pSend, pDest.id, msg);
      EnqueueKeepsRest(pDest, pSend);
      assert Statuses() == statuses && Pendings() == pendings && queues == queued;
    }

    /** Enqueueing touches nothing but the links. */
    method EnqueueKeepsRest(pDest: Process, pSend: Process)
      requires Sound() && Homed(SendTos(), queues) && InTable(pDest) && InTable(pSend)
      requires pSend.sendTo == pDest.id && pSend.id !in queues[pDest.id]
      modifies this`queues, pDest`currentSend, procTable`nextSend
      ensures Sound()
      ensures queues == old(queues)[pDest.id := old(queues)[pDest.id] + [pSend.id]]
      ensures Statuses() == old(Statuses()) && Pendings() == old(Pendings()) && SchedOf() == old(SchedOf())
    {
      EnqueueSender(pDest, pSend);
      SameFlags();
      SameTimes();
      SamePendings();
      SameStatuses();
    }

    lemma RunningIsInNoQueue()
      requires Valid()
      ensures Homed(SendTos(), queues) && InNoQueue(processReady.id)
    {
      QueuesAreHomed();
      forall d, i | 0 <= d < |queues| && 0 <= i < |queues[d]| ensures queues[d][i] != processReady.id {
        assert queues[d][i] in NetOf().queue[d];
        assert NetOf().SendsTo(queues[d][i], d);
      }
    }

    /** The blocking branch of `msg_send`. */
    method SendBlocking(pSend: Process, pDest: Process, msg: Message)
      requires Sound() && Homed(SendTos(), queues) && InTable(pSend) && InTable(pDest) && msg !in Buffers()
      requires !pSend.sending && !pSend.recving && InNoQueue(pSend.id)
      requires !NetOf().WaitsFor(pDest.id, pSend.id)
      requires Schedule(ReadyOf(SendNet(NetOf(), pSend.id, pDest.id, msg.Value())), SchedOf()).Some?
      modifies this`log, this`queues, this`processReady, procTable`ticks, procTable`nextSend
      modifies pDest`currentSend, pSend`sending, pSend`sendTo, pSend`msg, msg`holder
      ensures Sound()
      ensures NetOf() == SendNet(old(NetOf()), pSend.id, pDest.id, old(msg.Value()))
      ensures SchedOf() == Schedule(ReadyOf(NetOf()), old(SchedOf())).value
      ensures log == old(log) + [Sent(pSend.id, pDest.id, old(msg.Value()))]
      ensures pSend.msg == msg
    {
      SendQueued(pSend, pDest, msg);
      ReadyFlagsOfNet();
      Block(pSend);
    }

    /** `msg_send` after the deadlock check. */
    method Transfer(pSend: Process, pDest: Process, msg: Message)
      requires Sound() && Homed(SendTos(), queues) && InTable(pSend) && InTable(pDest) && msg !in Buffers()
      requires !pSend.sending && !pSend.recving && InNoQueue(pSend.id)
      requires !NetOf().WaitsFor(pDest.id, pSend.id) ==>
        Schedule(ReadyOf(SendNet(NetOf(), pSend.id, pDest.id, msg.Value())), SchedOf()).Some?
      modifies this`log, this`queues, this`processReady, procTable, Buffers(), msg`holder
      ensures Sound() && msg.Value() == old(msg.Value())
      ensures NetOf() == SendNet(old(NetOf()), pSend.id, pDest.id, old(msg.Value()))
      ensures if old(NetOf().WaitsFor(pDest.id, pSend.id)) then
          && SchedOf() == old(SchedOf())
          && log == old(log) + [Sent(pSend.id, pDest.id, old(msg.Value()))] + [Got(pDest.id, pSend.id, old(msg.Value()))]
          && old(pDest.msg).Value() == old(msg.Value())
        else
          && SchedOf() == Schedule(ReadyOf(NetOf()), old(SchedOf())).value
          && log == old(log) + [Sent(pSend.id, pDest.id, old(msg.Value()))]
          && pSend.msg == msg
    {
      WhoWaits(pDest, pSend.id);
      if pDest.recving && (pDest.recvFrom == pSend.id || pDest.recvFrom == PAny()) {
        SendDirect(pSend, pDest, msg);
      } else {
        SendBlocking(pSend, pDest, msg);
      }
    }

    /** The check `msg_send` makes; nothing changes. */
    method Check(src: nat, dest: nat) returns (dead: bool)
      requires Sound() && Acyclic(NetOf()) && src < |procTable| && dest < |procTable| && src != dest
      requires NetOf().status[src].Ready?
      ensures Sound() && NetOf() == old(NetOf()) && SchedOf() == old(SchedOf()) && Buffers() == old(Buffers())
      ensures dead <==> Reaches(NetOf(), dest, src)
    {
      var cycle;
      dead, cycle := DeadLock(src, dest);
    }

    method WouldDeadlock(pSend: Process, dest: nat) returns (dead: bool)
      requires Valid() && pSend == processReady && dest < |procTable| && dest != pSend.id
      ensures Valid() && Abs() == old(Abs()) && Buffers() == old(Buffers())
      ensures dead <==> Reaches(NetOf(), dest, pSend.id)
    {
      ghost var s := Abs();
      dead := Check(pSend.id, dest);
      ValidAs(s);
    }

    /** `msg_send` of the running process. False is the CRITICAL stop of the deadlock check. The
        caller's buffer belongs to nobody blocked, and somebody must be left to run when the
        sender blocks, or `process_schedule` never returns. */
    method MsgSend(pSend: Process, dest: nat, msg: Message) returns (ok: bool)
      requires Valid() && pSend == processReady && dest < |procTable| && dest != pSend.id
      requires msg !in Buffers() && msg.source == pSend.id
      requires SendStep(Abs(), dest, msg.Value()) != Spins
      modifies this, procTable, Buffers(), msg`holder
      ensures Valid()
      ensures ok ==> Returns(Abs()) == old(SendStep(Abs(), dest, msg.Value()))
      ensures !ok ==> old(SendStep(Abs(), dest, msg.Value())) == Critical && Abs() == old(Abs())
      ensures ok ==>
        if old(NetOf().WaitsFor(dest, processReady.id)) then old(procTable[dest].msg).Value() == old(msg.Value())
        else pSend.msg == msg
      ensures ok ==> msg.Value() == old(msg.Value())
    {
      SendOutcome(Abs(), dest, msg.Value());
      var dead := WouldDeadlock(pSend, dest);
      if dead {
        return false;
      }
      SendChecked(pSend, dest, msg);
      return true;
    }

    method SendChecked(pSend: Process, dest: nat, msg: Message)
      requires Valid() && pSend == processReady && dest < |procTable| && dest != pSend.id
      requires msg !in Buffers() && msg.source == pSend.id && !Reaches(NetOf(), dest, pSend.id)
      requires SendStep(Abs(), dest, msg.Value()) != Spins
      modifies this, procTable, Buffers(), msg`holder
      ensures Valid() && Returns(Abs()) == old(SendStep(Abs(), dest, msg.Value()))
      ensures msg.Value() == old(msg.Value())
      ensures if old(NetOf().WaitsFor(dest, processReady.id)) then old(procTable[dest].msg).Value() == old(msg.Value())
        else pSend.msg == msg
    {
      ghost var o := SendStep(Abs(), dest, msg.Value());
      SendOutcome(Abs(), dest, msg.Value());
      RunningIsInNoQueue();
      Transfer(pSend, procTable[dest], msg);
      ValidAs(o.sys);
    }

    // ------------------------------------------------------------ the parts of msg_recv

    method FillInterrupt(msg: Message)
      modifies msg`source, msg`kind, msg`body
      ensures msg.Value() == Msg(MSG_SOURCE_INTERRUPT, MSG_HW_INTERRUPT, EMPTY_BODY)
    {
      var intMsg := new Message(Msg(MSG_SOURCE_INTERRUPT, MSG_HW_INTERRUPT, EMPTY_BODY));
      msg.CopyFrom(intMsg);
    }

    /** A pending interrupt becomes a message. */
    method TakeInterrupt(pRecv: Process, msg: Message)
      requires Sound() && InTable(pRecv) && msg !in Buffers()
      modifies pRecv`haveIntMsg, msg`source, msg`kind, msg`body
      ensures Sound() && Statuses() == old(Statuses()) && SchedOf() == old(SchedOf())
      ensures Pendings() == old(Pendings())[pRecv.id := false]
      ensures msg.Value() == Msg(MSG_SOURCE_INTERRUPT, MSG_HW_INTERRUPT, EMPTY_BODY)
    {
      FillInterrupt(msg);
      SameStatuses();
      SetPending(pRecv, false);
    }

    /** Unlinking touches nothing but the links. */
    method UnlinkKeepsRest(pRecv: Process, pSrc: Process, pPrev: Process?, ghost k: nat)
      requires Sound() && Homed(SendTos(), queues) && InTable(pRecv) && InTable(pSrc) && LinkOk(pPrev)
      requires k < |queues[pRecv.id]| && queues[pRecv.id][k] == pSrc.id
      requires k > 0 ==> IdOf(pPrev) == queues[pRecv.id][k - 1]
      modifies this`queues, pRecv`currentSend, procTable`nextSend
      ensures Sound()
      ensures queues == old(queues)[pRecv.id := Without(old(queues)[pRecv.id], pSrc.id)]
      ensures Statuses() == old(Statuses()) && Pendings() == old(Pendings()) && SchedOf() == old(SchedOf())
    {
      UnlinkSender(pRecv, pSrc, pPrev, k);
      SameFlags();
      SameTimes();
      SamePendings();
      SameStatuses();
    }

    /** Copy the blocked sender's message and wake the sender. */
    method TakeMessage(pSrc: Process, msg: Message, ghost receiver: nat)
      requires Sound() && InTable(pSrc) && pSrc.sending && msg !in Buffers()
      modifies this`log, pSrc`msg, pSrc`sendTo, pSrc`sending, msg`source, msg`kind, msg`body
      ensures log == old(log) + [Got(receiver, pSrc.id, old(pSrc.msg.Value()))]
      ensures Sound() && Statuses() == old(Statuses())[pSrc.id := Ready]
      ensures Pendings() == old(Pendings()) && SchedOf() == old(SchedOf())
      ensures msg.Value() == old(pSrc.msg.Value())
    {
      log := log + [Got(receiver, pSrc.id, pSrc.msg.Value())];
      msg.CopyFrom(pSrc.msg);
      SameStatuses();
      EndSend(pSrc);
    }

    /** The blocked sender has got rid of its message and goes on. */
    method EndSend(proc: Process)
      requires Sound() && InTable(proc) && proc.sending
      modifies proc`msg, proc`sendTo, proc`sending
      ensures Sound() && Statuses() == old(Statuses())[proc.id := Ready]
      ensures Pendings() == old(Pendings()) && SchedOf() == old(SchedOf())
    {
      proc.msg := null;
      proc.sendTo := PNoTask();
      proc.sending := false;
      Unblock(proc);
      SameLinks();
      SameTimes();
      SamePendings();
      assert Statuses() == old(Statuses())[proc.id := Ready];
    }

    /** The `copy` branch of `msg_recv`. */
    method ReceiveFromSender(pRecv: Process, pSrc: Process, pPrev: Process?, ghost k: nat, msg: Message)
      requires Sound() && Homed(SendTos(), queues) && InTable(pRecv) && InTable(pSrc) && LinkOk(pPrev)
      requires pSrc.sending && msg !in Buffers()
      requires k < |queues[pRecv.id]| && queues[pRecv.id][k] == pSrc.id
      requires k > 0 ==> IdOf(pPrev) == queues[pRecv.id][k - 1]
      modifies this`queues, this`log, pRecv`currentSend, procTable`nextSend
      modifies pSrc`msg, pSrc`sendTo, pSrc`sending, msg`source, msg`kind, msg`body
      ensures Sound() && SchedOf() == old(SchedOf())
      ensures queues == old(queues)[pRecv.id := Without(old(queues)[pRecv.id], pSrc.id)]
      ensures Statuses() == old(Statuses())[pSrc.id := Ready] && Pendings() == old(Pendings())
      ensures log == old(log) + [Got(pRecv.id, pSrc.id, old(pSrc.msg.Value()))]
      ensures msg.Value() == old(pSrc.msg.Value())
    {
      UnlinkKeepsRest(pRecv, pSrc, pPrev, k);
      TakeMessage(pSrc, msg, pRecv.id);
    }

    /** The receiver notes what it waits for and where the message is to go. */
    method RecordReceive(pRecv: Process, src: int, msg: Message)
      requires Sound() && InTable(pRecv) && IsSource(src) && !pRecv.sending && !pRecv.recving
      requires msg !in Buffers()
      modifies pRecv`recving, pRecv`msg, pRecv`recvFrom, msg`holder
      ensures Sound() && pRecv.recving && pRecv.msg == msg
      ensures Statuses() == old(Statuses())[pRecv.id := Receiving(SourceOf(src))]
      ensures Pendings() == old(Pendings()) && SchedOf() == old(SchedOf())
    {
      pRecv.recving := true;
      pRecv.msg := msg;
      pRecv.recvFrom := src;
      msg.holder := pRecv.id;
      SameLinks();
      SameTimes();
      SamePendings();
      assert Statuses() == old(Statuses())[pRecv.id := Receiving(SourceOf(src))];
    }

    /** The blocking branch of `msg_recv`. */
    method ReceiveBlocking(pRecv: Process, src: int, msg: Message)
      requires Sound() && InTable(pRecv) && IsSource(src) && !pRecv.sending && !pRecv.recving
      requires msg !in Buffers()
      requires Schedule(ReadyOf(NetOf().(status := NetOf().status[pRecv.id := Receiving(SourceOf(src))])), SchedOf()).Some?
      modifies this`processReady, procTable`ticks, pRecv`recving, pRecv`msg, pRecv`recvFrom, msg`holder
      ensures Sound() && pRecv.msg == msg
      ensures NetOf() == old(NetOf().(status := NetOf().status[pRecv.id := Receiving(SourceOf(src))]))
      ensures SchedOf() == Schedule(ReadyOf(NetOf()), old(SchedOf())).value
    {
      RecordReceive(pRecv, src, msg);
      ReadyFlagsOfNet();
      Block(pRecv);
    }

    /** The queue of the receiver and its list. */
    lemma QueueAsList(pRecv: Process)
      requires Sound() && InTable(pRecv)
      ensures List(IdOf(pRecv.currentSend), Links(), queues[pRecv.id])
    {
      assert Heads()[pRecv.id] == IdOf(pRecv.currentSend);
    }

    /** The sender `msg_recv` will copy from, if there is one: the head of the queue for P_ANY,
        the named task when it is sending to the receiver, nobody for MSG_SOURCE_INTERRUPT. */
    method FindCopy(pRecv: Process, src: int) returns (copy: bool, pSrc: Process, pPrev: Process?, ghost k: nat)
      requires Sound() && QueuesExact(NetOf()) && InTable(pRecv) && IsSource(src)
      requires !FindNet(NetOf(), pRecv.id, SourceOf(src)).Hardware?
      ensures Sound() && NetOf() == old(NetOf()) && SchedOf() == old(SchedOf())
      ensures copy <==> FindNet(NetOf(), pRecv.id, SourceOf(src)).Sender?
      ensures copy ==>
        && InTable(pSrc) && LinkOk(pPrev) && pSrc.sending
        && FindNet(NetOf(), pRecv.id, SourceOf(src)) == Sender(pSrc.id, pSrc.msg.Value())
        && k < |queues[pRecv.id]| && queues[pRecv.id][k] == pSrc.id
        && (k > 0 ==> IdOf(pPrev) == queues[pRecv.id][k - 1])
    {
      copy, pSrc, pPrev, k := false, pRecv, null, 0;
      QueueAsList(pRecv);
      FoundSender(NetOf(), pRecv.id, SourceOf(src));
      if src == PAny() {
        if pRecv.currentSend != null {
          pSrc := pRecv.currentSend;
          copy := true;
        }
      } else if 0 <= src < |procTable| {
        if procTable[src].sending && procTable[src].sendTo == pRecv.id {
          copy := true;
          assert src in queues[pRecv.id];
          ghost var at :| 0 <= at < |queues[pRecv.id]| && queues[pRecv.id][at] == src;
          assert pRecv.currentSend != null;
          pSrc, pPrev, k := FindSender(pRecv, src, queues[pRecv.id], at);
        }
      }
    }

    /** The three ways through `msg_recv`. */
    method Collect(pRecv: Process, src: int, msg: Message)
      requires Sound() && QueuesExact(NetOf()) && InTable(pRecv) && IsSource(src) && msg !in Buffers()
      requires !pRecv.sending && !pRecv.recving
      requires FindNet(NetOf(), pRecv.id, SourceOf(src)).Nothing? ==>
        Schedule(ReadyOf(RecvNet(NetOf(), pRecv.id, SourceOf(src))), SchedOf()).Some?
      modifies this`log, this`queues, this`processReady, procTable, msg
      ensures Sound() && NetOf() == RecvNet(old(NetOf()), pRecv.id, SourceOf(src))
      ensures var found := FindNet(old(NetOf()), pRecv.id, SourceOf(src));
        && log == old(log) + ReceiveEvents(pRecv.id, found)
        && SchedOf() == (if found.Nothing? then Schedule(ReadyOf(NetOf()), old(SchedOf())).value else old(SchedOf()))
        && Received(pRecv, found, msg)
    {
      if pRecv.haveIntMsg && (src == PAny() || src == MSG_SOURCE_INTERRUPT) {
        log := log + [GotInterrupt(pRecv.id)];
        TakeInterrupt(pRecv, msg);
      } else {
        CollectMessage(pRecv, src, msg);
      }
    }

    /** Where the message is afterwards: in the caller's buffer, or still to come into it. */
    ghost predicate Received(pRecv: Process, found: Found, msg: Message)
      reads pRecv, msg
    {
      match found
      case Hardware => msg.Value() == Msg(MSG_SOURCE_INTERRUPT, MSG_HW_INTERRUPT, EMPTY_BODY)
      case Sender(_, m) => msg.Value() == m
      case Nothing => pRecv.msg == msg
    }

    /** `msg_recv` without an interrupt to take. */
    method CollectMessage(pRecv: Process, src: int, msg: Message)
      requires Sound() && QueuesExact(NetOf()) && InTable(pRecv) && IsSource(src) && msg !in Buffers()
      requires !pRecv.sending && !pRecv.recving && !FindNet(NetOf(), pRecv.id, SourceOf(src)).Hardware?
      requires FindNet(NetOf(), pRecv.id, SourceOf(src)).Nothing? ==>
        Schedule(ReadyOf(RecvNet(NetOf(), pRecv.id, SourceOf(src))), SchedOf()).Some?
      modifies this`log, this`queues, this`processReady, procTable, msg
      ensures Sound() && NetOf() == RecvNet(old(NetOf()), pRecv.id, SourceOf(src))
      ensures var found := FindNet(old(NetOf()), pRecv.id, SourceOf(src));
        && log == old(log) + ReceiveEvents(pRecv.id, found)
        && SchedOf() == (if found.Nothing? then Schedule(ReadyOf(NetOf()), old(SchedOf())).value else old(SchedOf()))
        && Received(pRecv, found, msg)
    {
      var copy, pSrc, pPrev, k := FindCopy(pRecv, src);
      if copy {
        QueuesAreHomed();
        CopyMessage(pRecv, src, pSrc, pPrev, k, msg);
      } else {
        WaitForMessage(pRecv, src, msg);
      }
    }

    /** There is a sender to copy from. */
    method CopyMessage(pRecv: Process, src: int, pSrc: Process, pPrev: Process?, ghost k: nat, msg: Message)
      requires Sound() && QueuesExact(NetOf()) && Homed(SendTos(), queues)
      requires InTable(pRecv) && InTable(pSrc) && LinkOk(pPrev) && pSrc.sending && msg !in Buffers()
      requires FindNet(NetOf(), pRecv.id, SourceOf(src)) == Sender(pSrc.id, pSrc.msg.Value())
      requires k < |queues[pRecv.id]| && queues[pRecv.id][k] == pSrc.id
      requires k > 0 ==> IdOf(pPrev) == queues[pRecv.id][k - 1]
      modifies this`queues, this`log, pRecv`currentSend, procTable`nextSend
      modifies pSrc`msg, pSrc`sendTo, pSrc`sending, msg`source, msg`kind, msg`body
      ensures Sound() && SchedOf() == old(SchedOf())
      ensures NetOf() == RecvNet(old(NetOf()), pRecv.id, SourceOf(src))
      ensures log == old(log) + [Got(pRecv.id, pSrc.id, old(pSrc.msg.Value()))]
      ensures msg.Value() == old(pSrc.msg.Value())
    {
      RecvLeaves(NetOf(), pRecv.id, SourceOf(src));
      ReceiveFromSender(pRecv, pSrc, pPrev, k, msg);
    }

    /** There is nobody to copy from. */
    method WaitForMessage(pRecv: Process, src: int, msg: Message)
      requires Sound() && QueuesExact(NetOf()) && InTable(pRecv) && IsSource(src) && !pRecv.sending && !pRecv.recving
      requires msg !in Buffers() && FindNet(NetOf(), pRecv.id, SourceOf(src)).Nothing?
      requires Schedule(ReadyOf(RecvNet(NetOf(), pRecv.id, SourceOf(src))), SchedOf()).Some?
      modifies this`processReady, procTable`ticks, pRecv`recving, pRecv`msg, pRecv`recvFrom, msg`holder
      ensures Sound() && pRecv.msg == msg
      ensures NetOf() == RecvNet(old(NetOf()), pRecv.id, SourceOf(src))
      ensures SchedOf() == Schedule(ReadyOf(NetOf()), old(SchedOf())).value
    {
      RecvLeaves(NetOf(), pRecv.id, SourceOf(src));
      ReceiveBlocking(pRecv, src, msg);
    }

    /** `msg_recv` of the running process. Somebody must be left to run when the receiver blocks. */
    method MsgRecv(pRecv: Process, src: int, msg: Message)
      requires Valid() && pRecv == processReady && IsSource(src) && src != pRecv.id && msg !in Buffers()
      requires ReceiveStep(Abs(), SourceOf(src)) != Spins
      modifies this, procTable, msg
      ensures Valid() && Returns(Abs()) == old(ReceiveStep(Abs(), SourceOf(src)))
      ensures Received(pRecv, old(FindNet(NetOf(), processReady.id, SourceOf(src))), msg)
    {
      ghost var o := ReceiveStep(Abs(), SourceOf(src));
      ReceiveOutcome(Abs(), SourceOf(src));
      Collect(pRecv, src, msg);
      ValidAs(o.sys);
    }

    // ------------------------------------------------------------ kernel entries

    /** `sys_send_recv`: the system call. */
    method SysSendRecv(func: int, srcDest: int, msg: Message, proc: Process) returns (r: SysResult)
      requires Valid() && proc == processReady && msg !in Buffers()
      requires func == MSG_SEND ==> 0 <= srcDest < |procTable|
      requires func == MSG_RECEIVE ==> IsSource(srcDest)
      requires func == MSG_SEND ==> SendStep(Abs(), srcDest, msg.Value()) != Spins
      requires func == MSG_RECEIVE ==> ReceiveStep(Abs(), SourceOf(srcDest)) != Spins
      modifies this, procTable, Buffers(), msg
      ensures Valid()
      ensures r == Done ==>
        || (func == MSG_SEND && Returns(Abs()) == old(SendStep(Abs(), srcDest, msg.Value())))
        || (func == MSG_RECEIVE && Returns(Abs()) == old(ReceiveStep(Abs(), SourceOf(srcDest))))
      ensures r != Done ==> Abs() == old(Abs())
      ensures r == AssertFailed <==> srcDest == proc.id
      ensures r == CriticalStop <==> (srcDest != proc.id && (
        (func != MSG_SEND && func != MSG_RECEIVE) ||
        (func == MSG_SEND && old(SendStep(Abs(), srcDest, msg.Value())) == Critical)))
      ensures r == Done && func == MSG_SEND ==>
        if old(NetOf().WaitsFor(srcDest, proc.id))
        then old(procTable[srcDest].msg).Value() == old(msg.Value()).(source := proc.id)
        else proc.msg == msg && msg.Value() == old(msg.Value()).(source := proc.id)
      ensures r == Done && func == MSG_RECEIVE ==>
        Received(proc, old(FindNet(NetOf(), proc.id, SourceOf(srcDest))), msg)
    {
      StampSource(msg, proc);
      if msg.source == srcDest {
        return AssertFailed;
      }
      r := Dispatch(func, srcDest, msg, proc);
    }

    method Dispatch(func: int, srcDest: int, msg: Message, proc: Process) returns (r: SysResult)
      requires Valid() && proc == processReady && msg !in Buffers() && msg.source == proc.id && srcDest != proc.id
      requires func == MSG_SEND ==> 0 <= srcDest < |procTable|
      requires func == MSG_RECEIVE ==> IsSource(srcDest)
      requires func == MSG_SEND ==> SendStep(Abs(), srcDest, msg.Value()) != Spins
      requires func == MSG_RECEIVE ==> ReceiveStep(Abs(), SourceOf(srcDest)) != Spins
      modifies this, procTable, Buffers(), msg
      ensures Valid() && r != AssertFailed
      ensures r == Done ==>
        || (func == MSG_SEND && Returns(Abs()) == old(SendStep(Abs(), srcDest, msg.Value())))
        || (func == MSG_RECEIVE && Returns(Abs()) == old(ReceiveStep(Abs(), SourceOf(srcDest))))
      ensures r != Done ==> Abs() == old(Abs())
      ensures r == CriticalStop <==>
        || (func != MSG_SEND && func != MSG_RECEIVE)
        || (func == MSG_SEND && old(SendStep(Abs(), srcDest, msg.Value())) == Critical)
      ensures r == Done && func == MSG_SEND ==>
        if old(NetOf().WaitsFor(srcDest, proc.id)) then old(procTable[srcDest].msg).Value() == old(msg.Value())
        else proc.msg == msg && msg.Value() == old(msg.Value())
      ensures r == Done && func == MSG_RECEIVE ==>
        Received(proc, old(FindNet(NetOf(), proc.id, SourceOf(srcDest))), msg)
    {
      if func == MSG_SEND {
        var ok := MsgSend(proc, srcDest, msg);
        return if ok then Done else CriticalStop;
      } else if func == MSG_RECEIVE {
        MsgRecv(proc, srcDest, msg);
        return Done;
      } else {
        return CriticalStop;
      }
    }

    /** The caller's buffer is given the caller's number; no blocked process notices. */
    method StampSource(msg: Message, proc: Process)
      requires Valid() && proc == processReady && msg !in Buffers()
      modifies msg`source
      ensures Valid() && Abs() == old(Abs()) && Buffers() == old(Buffers()) && msg.source == proc.id
      ensures msg.Value() == old(msg.Value()).(source := proc.id)
      ensures forall d: nat :: d < |procTable| ==>
        SendStep(Abs(), d, msg.Value()) == old(SendStep(Abs(), d, msg.Value()))
    {
      msg.source := proc.id;
      SameStatuses();
    }

    /** `deliver_int_to_proc`. */
    method DeliverInterrupt(task: nat)
      requires Valid() && task < |procTable|
      modifies this`log, procTable[task], procTable[task].msg
      ensures Valid() && Abs() == InterruptStep(old(Abs()), task)
      ensures old(NetOf().WaitsForInterrupt(task)) ==>
        old(procTable[task].msg).Value() == Msg(MSG_SOURCE_INTERRUPT, MSG_HW_INTERRUPT, old(procTable[task].msg.body))
    {
      ghost var s' := InterruptStep(Abs(), task);
      RaiseKeeps(NetOf(), task);
      Deliver(procTable[task]);
      ValidAs(s');
    }

    /** The two branches of `deliver_int_to_proc`. */
    method Deliver(proc: Process)
      requires Sound() && InTable(proc) && NetOf().Shaped()
      modifies this`log, proc, proc.msg
      ensures Sound() && NetOf() == RaiseNet(old(NetOf()), proc.id) && SchedOf() == old(SchedOf())
      ensures log == old(log) + [Raised(proc.id)] + if old(NetOf().WaitsForInterrupt(proc.id)) then [GotInterrupt(proc.id)] else []
      ensures old(NetOf().WaitsForInterrupt(proc.id)) ==>
        old(proc.msg).Value() == Msg(MSG_SOURCE_INTERRUPT, MSG_HW_INTERRUPT, old(proc.msg.body))
    {
      WhoWaits(proc, 0);
      if proc.recving && (proc.recvFrom == MSG_SOURCE_INTERRUPT || proc.recvFrom == PAny()) {
        WakeForInterrupt(proc);
      } else {
        MarkPending(proc);
      }
    }

    method MarkPending(proc: Process)
      requires Sound() && InTable(proc)
      modifies this`log, proc`haveIntMsg
      ensures Sound() && Statuses() == old(Statuses()) && SchedOf() == old(SchedOf())
      ensures Pendings() == old(Pendings())[proc.id := true]
      ensures log == old(log) + [Raised(proc.id)] + []
    {
      log := log + [Raised(proc.id)];
      SetPending(proc, true);
    }

    method SetPending(proc: Process, pending: bool)
      requires Sound() && InTable(proc)
      modifies proc`haveIntMsg
      ensures Sound() && Statuses() == old(Statuses()) && SchedOf() == old(SchedOf())
      ensures Pendings() == old(Pendings())[proc.id := pending]
    {
      proc.haveIntMsg := pending;
      SameLinks();
      SameTimes();
      SameFlags();
      SameStatuses();
    }

    method WakeForInterrupt(proc: Process)
      requires Sound() && InTable(proc) && proc.recving
      modifies this`log, proc`haveIntMsg, proc`recving, proc`msg, proc`recvFrom, proc.msg`source, proc.msg`kind
      ensures Sound() && Statuses() == old(Statuses())[proc.id := Ready]
      ensures Pendings() == old(Pendings())[proc.id := false] && SchedOf() == old(SchedOf())
      ensures old(proc.msg).Value() == Msg(MSG_SOURCE_INTERRUPT, MSG_HW_INTERRUPT, old(proc.msg.body))
      ensures log == old(log) + [Raised(proc.id)] + [GotInterrupt(proc.id)]
    {
      log := log + [Raised(proc.id)] + [GotInterrupt(proc.id)];
      StampWaiting(proc);
      SetPending(proc, false);
      EndReceive(proc);
    }

    /** The interrupt message into the buffer of the waiting receiver. */
    method StampWaiting(proc: Process)
      requires Sound() && InTable(proc) && proc.recving
      modifies proc.msg`source, proc.msg`kind
      ensures Sound() && Statuses() == old(Statuses()) && Pendings() == old(Pendings()) && SchedOf() == old(SchedOf())
      ensures proc.msg.Value() == Msg(MSG_SOURCE_INTERRUPT, MSG_HW_INTERRUPT, old(proc.msg.body))
    {
      assert proc.msg != null;
      proc.msg.source := MSG_SOURCE_INTERRUPT;
      proc.msg.kind := MSG_HW_INTERRUPT;
      SameStatuses();
    }

    method SpendTick()
      requires Sound()
      modifies this`clock, procTable`ticks
      ensures Sound() && Statuses() == old(Statuses()) && Pendings() == old(Pendings())
      ensures clock == old(clock) + 1
      ensures Ticks() == old(Ticks())[processReady.id := processReady.ticks] && Priorities() == old(Priorities())
      ensures processReady.ticks == old(processReady.ticks) - 1
      ensures ReadyFlags() == old(ReadyFlags())
    {
      clock := clock + 1;
      processReady.ticks := processReady.ticks - 1;
      SameLinks();
      SamePendings();
      SameFlags();
      SameStatuses();
    }

    /** The tick counted, and a process chosen when the running one has used up its own. */
    method CountTick(reentrant: bool)
      requires Sound() && Tick(ReadyFlags(), SchedOf(), reentrant).Some?
      modifies this`clock, this`processReady, procTable`ticks
      ensures Sound() && Statuses() == old(Statuses()) && Pendings() == old(Pendings())
      ensures clock == old(clock) + 1
      ensures SchedOf() == Tick(old(ReadyFlags()), old(SchedOf()), reentrant).value
    {
      ghost var s := SchedOf();
      SpendTick();
      assert SchedOf() == s.(ticks := s.ticks[s.running := s.ticks[s.running] - 1]);
      if reentrant || processReady.ticks > 0 {
        return;
      }
      Reschedule();
    }

    /** `clock_int_handler`. */
    method ClockInterrupt(reentrant: bool)
      requires Valid() && ClockStep(Abs(), reentrant) != Spins
      modifies this`clock, this`processReady, procTable`ticks
      ensures Valid() && Returns(Abs()) == ClockStep(old(Abs()), reentrant)
    {
      ghost var s' := ClockStep(Abs(), reentrant).sys;
      ClockStepKeeps(Abs(), reentrant);
      ReadyFlagsOfNet();
      CountTick(reentrant);
      ValidAs(s');
    }
  }
}
