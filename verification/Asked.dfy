/** Over every run, a process only gets what its last receive asked for. */
module Asked {
  import opened Wrappers
  import opened Rendezvous
  import opened NetInvariant
  import opened KernelModel
  import opened History

  /** What d's last receive among the first n entries of a run asked for. */
  ghost function LastAsked(states: seq<Sys>, reqs: seq<Request>, n: nat, d: nat): Option<Source>
    requires n <= |reqs| <= |states|
  {
    if n == 0 then None
    else if reqs[n - 1].ReceiveFrom? && states[n - 1].sched.running == d then Some(reqs[n - 1].source)
    else LastAsked(states, reqs, n - 1, d)
  }

  /** A message from s, or an interrupt, is what this receive asked for. */
  predicate Accepts(asked: Option<Source>, e: Event) {
    match e
    case Got(_, s, _) => asked == Some(AnySource) || asked == Some(Task(s))
    case GotInterrupt(_) => asked == Some(AnySource) || asked == Some(Interrupt)
    case _ => true
  }

  function Getter(e: Event): nat {
    match e
    case Sent(_, d, _) => d
    case Got(d, _, _) => d
    case Raised(t) => t
    case GotInterrupt(t) => t
  }

  /** A process starts waiting only by its own receive, and for what that asks for. */
  lemma StartsWaiting(s: Sys, req: Request, d: nat)
    requires CoreInv(s) && req.InRange(|s.net.status|) && Step(s, req).Returns? && d < |s.net.status|
    ensures var status := Step(s, req).sys.net.status;
      |status| == |s.net.status| && (status[d].Receiving? && status[d] != s.net.status[d] ==>
        d == s.sched.running && req == ReceiveFrom(status[d].source))
  {
    StepParts(s, req);
    StepKeeps(s, req);
  }

  lemma {:induction false} WaitsAsAsked(states: seq<Sys>, reqs: seq<Request>, n: nat, d: nat)
    requires IsRun(states, reqs) && n < |states| && d < |states[0].net.status|
    requires !states[0].net.status[d].Receiving?
    ensures |states[n].net.status| == |states[0].net.status|
    ensures states[n].net.status[d].Receiving? ==>
      LastAsked(states, reqs, n, d) == Some(states[n].net.status[d].source)
  {
    if n > 0 {
      WaitsAsAsked(states, reqs, n - 1, d);
      assert IsStep(states[n - 1], reqs[n - 1], states[n - 1 + 1]);
      StartsWaiting(states[n - 1], reqs[n - 1], d);
    }
  }

  /** What one entry delivers goes to a process that waits for it, or to the one that asks for it now. */
  lemma DeliveredTo(s: Sys, req: Request, e: Event)
    requires CoreInv(s) && req.InRange(|s.net.status|) && Step(s, req).Returns? && e in NewEvents(s, req)
    ensures Getter(e) < |s.net.status|
    ensures e.Got? || e.GotInterrupt? ==>
      if req.ReceiveFrom? then Getter(e) == s.sched.running && Accepts(Some(req.source), e)
      else s.net.status[Getter(e)].Receiving? && Accepts(Some(s.net.status[Getter(e)].source), e)
  {
  }

  /** Every message and every interrupt a process gets in a run is one its last receive accepts. */
  lemma RunGetsWhatItAsked(states: seq<Sys>, reqs: seq<Request>, k: nat, e: Event)
    requires IsRun(states, reqs) && k < |reqs|
    requires forall d :: 0 <= d < |states[0].net.status| ==> !states[0].net.status[d].Receiving?
    requires |states[k].log| <= |states[k + 1].log| && e in states[k + 1].log[|states[k].log|..]
    ensures Accepts(LastAsked(states, reqs, k + 1, Getter(e)), e)
  {
    var s, req := states[k], reqs[k];
    assert IsStep(states[k], reqs[k], states[k + 1]);
    StepParts(s, req);
    assert states[k + 1].log[|s.log|..] == NewEvents(s, req);
    DeliveredTo(s, req, e);
    RunKeeps(states, reqs, k);
    WaitsAsAsked(states, reqs, k, 0);
    WaitsAsAsked(states, reqs, k, Getter(e));
  }
}
