/** The ticks/priority scheduler as a function of values: who is ready, the ticks each process
    has left and its priority. */
module Scheduler {
  import opened Wrappers

  datatype Sched = Sched(ticks: seq<int>, priority: seq<int>, running: nat)
  {
    ghost predicate Shaped(n: nat) {
      |ticks| == n && |priority| == n && running < n
    }
  }

  /** One scan of `process_schedule` over the first n processes. */
  function Pick(ready: seq<bool>, ticks: seq<int>, n: nat): (k: Option<nat>)
    requires n <= |ready| && n <= |ticks|
    ensures k.Some? ==> k.value < n
  {
    if n == 0 then None
    else
      var best := Pick(ready, ticks, n - 1);
      if ready[n - 1] && ticks[n - 1] > Most(ticks, best) then Some(n - 1) else best
  }

  /** The local `biggest_tick` of the scan: 0 until somebody has been chosen. */
  function Most(ticks: seq<int>, best: Option<nat>): int
    requires best.Some? ==> best.value < |ticks|
  {
    if best.Some? then ticks[best.value] else 0
  }

  /** k is the lowest-numbered ready process among those with the most ticks, and has some. */
  ghost predicate Chosen(ready: seq<bool>, ticks: seq<int>, k: nat)
    requires |ready| == |ticks|
  {
    && k < |ready| && ready[k] && ticks[k] > 0
    && (forall j :: 0 <= j < |ready| && ready[j] ==> ticks[j] <= ticks[k])
    && (forall j :: 0 <= j < k && ready[j] ==> ticks[j] < ticks[k])
  }

  ghost predicate SomebodyHasTicks(ready: seq<bool>, ticks: seq<int>)
    requires |ready| == |ticks|
  {
    exists k :: 0 <= k < |ready| && ready[k] && ticks[k] > 0
  }

  lemma {:induction false} PickScan(ready: seq<bool>, ticks: seq<int>, n: nat)
    requires |ready| == |ticks| && n <= |ready|
    ensures var k := Pick(ready, ticks, n);
      match k
      case None => forall j :: 0 <= j < n && ready[j] ==> ticks[j] <= 0
      case Some(b) => Chosen(ready[..n], ticks[..n], b)
  {
    if n > 0 {
      PickScan(ready, ticks, n - 1);
    }
  }

  /** The scan finds the chosen process, and finds nobody only when nobody ready has ticks. */
  lemma PickIsChosen(ready: seq<bool>, ticks: seq<int>)
    requires |ready| == |ticks|
    ensures forall k: nat :: Chosen(ready, ticks, k) <==> Pick(ready, ticks, |ready|) == Some(k)
    ensures Pick(ready, ticks, |ready|).Some? <==> SomebodyHasTicks(ready, ticks)
  {
    PickScan(ready, ticks, |ready|);
    assert ready[..|ready|] == ready && ticks[..|ready|] == ticks;
    var b := Pick(ready, ticks, |ready|);
  }

  function Refill(ready: seq<bool>, ticks: seq<int>, priority: seq<int>): (r: seq<int>)
    requires |ready| == |ticks| == |priority|
    ensures |r| == |ticks|
  {
    seq(|ticks|, i requires 0 <= i < |ticks| => if ready[i] then priority[i] else ticks[i])
  }

  /** `process_schedule`: scan; when nobody ready has ticks, refill the ready ones and scan again.
      None: nobody is found after the refill either, and the source goes round for ever. */
  function Schedule(ready: seq<bool>, s: Sched): Option<Sched>
    requires s.Shaped(|ready|)
  {
    match Pick(ready, s.ticks, |ready|)
    case Some(k) => Some(s.(running := k))
    case None =>
      var ticks := Refill(ready, s.ticks, s.priority);
      match Pick(ready, ticks, |ready|)
      case Some(k) => Some(s.(ticks := ticks, running := k))
      case None => None
  }

  ghost predicate Schedulable(ready: seq<bool>, s: Sched)
    requires s.Shaped(|ready|)
  {
    exists k :: 0 <= k < |ready| && ready[k] && (s.ticks[k] > 0 || s.priority[k] > 0)
  }

  /** Two scans are enough exactly when some ready process has ticks or a positive priority; if
      none has, a refill changes nothing about that, so no number of rounds helps. */
  lemma ScheduleTerminates(ready: seq<bool>, s: Sched)
    requires s.Shaped(|ready|)
    ensures Schedule(ready, s).Some? <==> Schedulable(ready, s)
    ensures !Schedulable(ready, s) ==>
      && !SomebodyHasTicks(ready, s.ticks)
      && !Schedulable(ready, s.(ticks := Refill(ready, s.ticks, s.priority)))
  {
    PickIsChosen(ready, s.ticks);
    var ticks := Refill(ready, s.ticks, s.priority);
    PickIsChosen(ready, ticks);
    if Schedulable(ready, s) && !SomebodyHasTicks(ready, s.ticks) {
      var k :| 0 <= k < |ready| && ready[k] && (s.ticks[k] > 0 || s.priority[k] > 0);
      assert ready[k] && ticks[k] > 0;
    }
    if SomebodyHasTicks(ready, s.ticks) {
      var k :| 0 <= k < |ready| && ready[k] && s.ticks[k] > 0;
    }
    if SomebodyHasTicks(ready, ticks) {
      var k :| 0 <= k < |ready| && ready[k] && ticks[k] > 0;
      assert s.priority[k] > 0;
    }
  }

  /** The clock interrupt. A re-entrant one only counts the tick. */
  function Tick(ready: seq<bool>, s: Sched, reentrant: bool): Option<Sched>
    requires s.Shaped(|ready|)
  {
    var s' := s.(ticks := s.ticks[s.running := s.ticks[s.running] - 1]);
    if reentrant || s'.ticks[s.running] > 0 then Some(s') else Schedule(ready, s')
  }

  /** The running process is ready and has ticks; nobody has more ticks than priority or fewer
      than none. */
  ghost predicate SchedInv(ready: seq<bool>, s: Sched) {
    && s.Shaped(|ready|)
    && ready[s.running] && s.ticks[s.running] > 0
    && TicksInRange(s)
  }

  ghost predicate TicksInRange(s: Sched) {
    && |s.ticks| == |s.priority|
    && (forall i :: 0 <= i < |s.ticks| ==> 0 <= s.ticks[i] <= s.priority[i])
  }

  /** The scheduler establishes its invariant: it leaves a chosen process running, and touches
      ticks only when nobody ready had any. */
  lemma ScheduleEstablishes(ready: seq<bool>, s: Sched)
    requires s.Shaped(|ready|) && TicksInRange(s)
    requires Schedule(ready, s).Some?
    ensures var s' := Schedule(ready, s).value;
      && SchedInv(ready, s') && Chosen(ready, s'.ticks, s'.running)
      && s'.priority == s.priority
      && (s'.ticks == s.ticks ||
          (!SomebodyHasTicks(ready, s.ticks) && s'.ticks == Refill(ready, s.ticks, s.priority)))
  {
    PickIsChosen(ready, s.ticks);
    PickIsChosen(ready, Refill(ready, s.ticks, s.priority));
  }

  /** What a reschedule does to the ticks: nothing to a blocked process, ever; nothing at all while
      somebody ready has some; and else every ready process gets its priority. */
  lemma ScheduleTicks(ready: seq<bool>, s: Sched)
    requires s.Shaped(|ready|) && Schedule(ready, s).Some?
    ensures var s' := Schedule(ready, s).value;
      && |s'.ticks| == |s.ticks| && s'.priority == s.priority
      && (forall i :: 0 <= i < |ready| && !ready[i] ==> s'.ticks[i] == s.ticks[i])
      && (SomebodyHasTicks(ready, s.ticks) ==> s'.ticks == s.ticks)
      && (!SomebodyHasTicks(ready, s.ticks) ==> forall i :: 0 <= i < |ready| && ready[i] ==> s'.ticks[i] == s.priority[i])
  {
    PickIsChosen(ready, s.ticks);
  }

  /** What a clock interrupt does: one tick of the running process is spent; it goes on as long as
      it has more, or the interrupt is re-entrant; otherwise a ready process with the most ticks is
      chosen, blocked processes keep their ticks, and ready ones are refilled exactly when none of
      them has any left. */
  lemma TickSpends(ready: seq<bool>, s: Sched, reentrant: bool)
    requires s.Shaped(|ready|) && Tick(ready, s, reentrant).Some?
    ensures var s', r := Tick(ready, s, reentrant).value, s.running;
      var left := s.ticks[r := s.ticks[r] - 1];
      && s'.priority == s.priority && |s'.ticks| == |s.ticks|
      && (reentrant || s.ticks[r] > 1 ==> s'.running == r && s'.ticks == left)
      && (!reentrant && s.ticks[r] <= 1 ==>
            && Chosen(ready, s'.ticks, s'.running)
            && (forall i :: 0 <= i < |ready| && !ready[i] ==> s'.ticks[i] == left[i])
            && (SomebodyHasTicks(ready, left) ==> s'.ticks == left)
            && (!SomebodyHasTicks(ready, left) ==> forall i :: 0 <= i < |ready| && ready[i] ==> s'.ticks[i] == s.priority[i]))
  {
    if !reentrant && s.ticks[s.running] <= 1 {
      var s1 := s.(ticks := s.ticks[s.running := s.ticks[s.running] - 1]);
      ScheduleTicks(ready, s1);
      PickIsChosen(ready, s1.ticks);
      PickIsChosen(ready, Refill(ready, s1.ticks, s1.priority));
    }
  }

  lemma TickKeeps(ready: seq<bool>, s: Sched)
    requires SchedInv(ready, s) && Tick(ready, s, false).Some?
    ensures SchedInv(ready, Tick(ready, s, false).value)
  {
    var s' := s.(ticks := s.ticks[s.running := s.ticks[s.running] - 1]);
    if s'.ticks[s.running] <= 0 {
      ScheduleEstablishes(ready, s');
    }
  }

  /** A re-entrant tick breaks the invariant exactly when the running process was on its last
      tick. */
  lemma ReentrantTick(ready: seq<bool>, s: Sched)
    requires SchedInv(ready, s)
    ensures Tick(ready, s, true).Some?
    ensures SchedInv(ready, Tick(ready, s, true).value) <==> s.ticks[s.running] > 1
  {
  }

  // ---------------------------------------------------------------- bounded waiting

  /** The sum of the first n entries of f, leaving out entry p. */
  function SumBut(f: seq<int>, p: nat, n: nat): int
    requires n <= |f|
  {
    if n == 0 then 0
    else SumBut(f, p, n - 1) + (if n - 1 == p then 0 else f[n - 1])
  }

  lemma {:induction false} SumButMonotone(f: seq<int>, g: seq<int>, p: nat, n: nat)
    requires n <= |f| && n <= |g|
    requires forall i :: 0 <= i < n && i != p ==> f[i] <= g[i]
    ensures SumBut(f, p, n) <= SumBut(g, p, n)
  {
    if n > 0 {
      SumButMonotone(f, g, p, n - 1);
    }
  }

  lemma {:induction false} SumButUpdate(f: seq<int>, p: nat, i: nat, x: int, n: nat)
    requires i < |f| && n <= |f|
    ensures SumBut(f[i := x], p, n) == SumBut(f, p, n) + (if i != p && i < n then x - f[i] else 0)
  {
    if n > 0 {
      SumButUpdate(f, p, i, x, n - 1);
    }
  }

  ghost function Others(s: Sched, p: nat): int {
    SumBut(s.priority, p, |s.priority|)
  }

  /** How many more clock ticks p may have to wait: the ticks everybody else has left, plus one
      full round of priorities when p itself must wait for a refill. */
  ghost function Patience(s: Sched, p: nat): int
    requires p < |s.ticks|
  {
    (if s.ticks[p] > 0 then 0 else Others(s, p)) + SumBut(s.ticks, p, |s.ticks|)
  }

  lemma {:induction false} ZeroSum(f: seq<int>, p: nat, n: nat)
    requires n <= |f|
    requires forall i :: 0 <= i < n ==> f[i] == 0
    ensures SumBut(f, p, n) == 0
  {
    if n > 0 {
      ZeroSum(f, p, n - 1);
    }
  }

  lemma PatienceBound(s: Sched, p: nat)
    requires TicksInRange(s) && p < |s.ticks|
    ensures 0 <= Patience(s, p) <= 2 * Others(s, p)
  {
    var zero := seq(|s.ticks|, _ => 0);
    ZeroSum(zero, p, |zero|);
    SumButMonotone(zero, s.ticks, p, |s.ticks|);
    SumButMonotone(s.ticks, s.priority, p, |s.ticks|);
  }

  /** A reschedule never makes a ready process wait longer, unless it is picked. */
  lemma SchedulePatience(ready: seq<bool>, s: Sched, p: nat)
    requires s.Shaped(|ready|) && TicksInRange(s) && p < |ready| && ready[p]
    requires s.priority[p] > 0
    requires Schedule(ready, s).Some?
    ensures Patience(Schedule(ready, s).value, p) <= Patience(s, p)
  {
    ScheduleEstablishes(ready, s);
    PickIsChosen(ready, s.ticks);
    var s' := Schedule(ready, s).value;
    if s'.ticks != s.ticks {
      assert s'.ticks[p] == s.priority[p];
      SumButMonotone(s'.ticks, s.priority, p, |s.ticks|);
      var zero := seq(|s.ticks|, _ => 0);
      ZeroSum(zero, p, |zero|);
      SumButMonotone(zero, s.ticks, p, |s.ticks|);
    }
  }

  /** Every clock tick spent on somebody else brings a ready process closer to its turn. */
  lemma TickPatience(ready: seq<bool>, s: Sched, p: nat)
    requires SchedInv(ready, s) && p < |ready| && ready[p] && p != s.running
    requires s.priority[p] > 0
    requires Tick(ready, s, false).Some?
    ensures Patience(Tick(ready, s, false).value, p) <= Patience(s, p) - 1
  {
    var s' := s.(ticks := s.ticks[s.running := s.ticks[s.running] - 1]);
    SumButUpdate(s.ticks, p, s.running, s.ticks[s.running] - 1, |s.ticks|);
    if s'.ticks[s.running] <= 0 {
      SchedulePatience(ready, s', p);
    }
  }
}
