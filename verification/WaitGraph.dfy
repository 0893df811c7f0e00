/** The wait-for graph of blocked senders: an edge from p to the process p is SENDING to. Every
    process has at most one outgoing edge, so walks from a node are unique. */
module WaitGraph {
  import opened Rendezvous

  /** A walk along SENDING edges. */
  ghost predicate Walk(net: Net, w: seq<nat>) {
    && |w| > 0
    && (forall i :: 0 <= i < |w| ==> w[i] < |net.status|)
    && (forall i :: 0 <= i < |w| - 1 ==> net.SendsTo(w[i], w[i + 1]))
  }

  ghost predicate WalkBetween(net: Net, w: seq<nat>, a: nat, b: nat) {
    Walk(net, w) && w[0] == a && w[|w| - 1] == b
  }

  ghost predicate Reaches(net: Net, a: nat, b: nat) {
    exists w :: WalkBetween(net, w, a, b)
  }

  /** No walk of length at least one returns to its start. */
  ghost predicate Acyclic(net: Net) {
    forall w :: Walk(net, w) && |w| > 1 ==> w[0] != w[|w| - 1]
  }

  lemma SubWalk(net: Net, w: seq<nat>, i: nat, j: nat)
    requires Walk(net, w) && i < j <= |w|
    ensures WalkBetween(net, w[i..j], w[i], w[j - 1])
  {
    var v := w[i..j];
    forall k | 0 <= k < |v| - 1 ensures net.SendsTo(v[k], v[k + 1]) {
      assert v[k] == w[i + k] && v[k + 1] == w[i + k + 1];
      assert net.SendsTo(w[i + k], w[i + k + 1]);
    }
  }

  lemma Extended(net: Net, w: seq<nat>, x: nat)
    requires Walk(net, w) && net.SendsTo(w[|w| - 1], x) && x < |net.status|
    ensures WalkBetween(net, w + [x], w[0], x)
  {
    var v := w + [x];
    forall i | 0 <= i < |v| - 1 ensures net.SendsTo(v[i], v[i + 1]) {
      if i < |w| - 1 { assert net.SendsTo(w[i], w[i + 1]); }
    }
  }

  lemma Distinct(net: Net, w: seq<nat>)
    requires Acyclic(net) && Walk(net, w)
    ensures NoDuplicates(w)
  {
    forall i, j | 0 <= i < j < |w| ensures w[i] != w[j] {
      SubWalk(net, w, i, j + 1);
    }
  }

  lemma {:induction false} PigeonHole(w: seq<nat>, n: nat)
    requires NoDuplicates(w) && forall i :: 0 <= i < |w| ==> w[i] < n
    ensures |w| <= n
    decreases n
  {
    if |w| > 0 {
      assert w[0] < n;
      WithoutDuplicateFree(w, n - 1);
      var v := Without(w, n - 1);
      if n - 1 in w {
        var k :| 0 <= k < |w| && w[k] == n - 1;
        WithoutAt(w, k);
      }
      forall i | 0 <= i < |v| ensures v[i] < n - 1 {
        assert v[i] in w && v[i] != n - 1;
      }
      PigeonHole(v, n - 1);
    }
  }

  /** In an acyclic graph a walk never has more nodes than there are processes: the reason the
      deadlock walk stops. */
  lemma WalkBound(net: Net, w: seq<nat>)
    requires Acyclic(net) && Walk(net, w)
    ensures |w| <= |net.status|
  {
    Distinct(net, w);
    PigeonHole(w, |net.status|);
  }

  /** Walks from the same node agree: the shorter one is a prefix of the longer one. */
  lemma {:induction false} Unique(net: Net, v: seq<nat>, w: seq<nat>)
    requires Walk(net, v) && Walk(net, w) && v[0] == w[0] && |v| <= |w|
    ensures v == w[..|v|]
    decreases |v|
  {
    if |v| > 1 {
      var n := |v| - 1;
      SubWalk(net, v, 0, n);
      assert v[0..n] == v[..n];
      Unique(net, v[..n], w);
      assert v[..n] == w[..n];
      assert v[n - 1] == v[..n][n - 1] == w[n - 1];
      assert net.SendsTo(v[n - 1], v[n]) && net.SendsTo(w[n - 1], w[n]);
      assert v == v[..n] + [v[n]] && w[..|v|] == w[..n] + [w[n]];
    }
  }

  /** A complete walk (its last node sends to nobody) decides reachability. */
  lemma Complete(net: Net, w: seq<nat>, b: nat)
    requires Walk(net, w) && !net.status[w[|w| - 1]].Sending?
    ensures Reaches(net, w[0], b) <==> b in w
  {
    if Reaches(net, w[0], b) {
      var v :| WalkBetween(net, v, w[0], b);
      if |v| <= |w| {
        Unique(net, v, w);
        assert b == w[|v| - 1];
      } else {
        assert net.SendsTo(v[|w| - 1], v[|w|]);
        Unique(net, w, v);
        assert false;
      }
    }
    if b in w {
      var k :| 0 <= k < |w| && w[k] == b;
      SubWalk(net, w, 0, k + 1);
    }
  }

  /** Dropping edges keeps the graph acyclic. */
  lemma Fewer(net: Net, net': Net)
    requires Acyclic(net) && |net.status| == |net'.status|
    requires forall p, d :: net'.SendsTo(p, d) ==> net.SendsTo(p, d)
    ensures Acyclic(net')
  {
    forall w | Walk(net', w) && |w| > 1 ensures w[0] != w[|w| - 1] {
      forall i | 0 <= i < |w| - 1 ensures net.SendsTo(w[i], w[i + 1]) {
        assert net'.SendsTo(w[i], w[i + 1]);
      }
      assert Walk(net, w);
    }
  }

  /** net' is net with the one edge p -> d added; p had no edge before. */
  ghost predicate OneMoreEdge(net: Net, net': Net, p: nat, d: nat) {
    && |net.status| == |net'.status|
    && p < |net.status| && d < |net.status|
    && !net.status[p].Sending?
    && net'.SendsTo(p, d)
    && (forall a, b :: a != p ==> (net'.SendsTo(a, b) <==> net.SendsTo(a, b)))
  }

  /** A walk of net' that ends in p has, up to the first p, only edges of net. */
  lemma {:induction false} UpToFirst(net: Net, net': Net, p: nat, d: nat, w: seq<nat>)
    requires OneMoreEdge(net, net', p, d)
    requires Walk(net', w) && w[|w| - 1] == p
    ensures Reaches(net, w[0], p)
    decreases |w|
  {
    if w[0] == p {
      assert WalkBetween(net, [p], p, p);
    } else {
      SubWalk(net', w, 1, |w|);
      UpToFirst(net, net', p, d, w[1..]);
      var v :| WalkBetween(net, v, w[1], p);
      assert net'.SendsTo(w[0], w[1]);
      var u := [w[0]] + v;
      forall i | 0 <= i < |u| - 1 ensures net.SendsTo(u[i], u[i + 1]) {
        if i > 0 { assert net.SendsTo(v[i - 1], v[i]); }
      }
      assert WalkBetween(net, u, w[0], p);
    }
  }

  /** A send that passes the deadlock check keeps the graph acyclic. */
  lemma CheckedEdge(net: Net, net': Net, p: nat, d: nat)
    requires Acyclic(net) && OneMoreEdge(net, net', p, d)
    requires !Reaches(net, d, p)
    ensures Acyclic(net')
  {
    forall w | Walk(net', w) && |w| > 1 ensures w[0] != w[|w| - 1] {
      if w[0] == w[|w| - 1] {
        if p in w {
          var k :| 0 <= k < |w| && w[k] == p;
          CycleThrough(net, net', p, d, w, k);
        } else {
          forall i | 0 <= i < |w| - 1 ensures net.SendsTo(w[i], w[i + 1]) {
            assert w[i] in w && net'.SendsTo(w[i], w[i + 1]);
          }
          assert Walk(net, w);
        }
      }
    }
  }

  /** A cycle of net' through p starts, after p, in d; following it round reaches p again. */
  lemma CycleThrough(net: Net, net': Net, p: nat, d: nat, w: seq<nat>, k: nat)
    requires OneMoreEdge(net, net', p, d)
    requires Walk(net', w) && |w| > 1 && w[0] == w[|w| - 1] && k < |w| && w[k] == p
    ensures Reaches(net, d, p)
  {
    var n := |w| - 1;
    var k' := if k == n then 0 else k;
    assert net'.SendsTo(w[k'], w[k' + 1]);
    var u := w[k' + 1..] + w[1..k' + 1];
    forall i | 0 <= i < |u| - 1 ensures net'.SendsTo(u[i], u[i + 1]) {
      if i < n - k' - 1 {
        assert net'.SendsTo(w[k' + 1 + i], w[k' + 2 + i]);
      } else {
        var j := i - (n - k' - 1);
        assert net'.SendsTo(w[j], w[j + 1]);
      }
    }
    assert u[|u| - 1] == p;
    UpToFirst(net, net', p, d, u);
  }

  /** The converse: had the check said yes, the edge would have closed a cycle. */
  lemma UncheckedEdge(net: Net, net': Net, p: nat, d: nat)
    requires OneMoreEdge(net, net', p, d)
    requires Reaches(net, d, p)
    ensures !Acyclic(net')
  {
    var v :| WalkBetween(net, v, d, p);
    forall i | 0 <= i < |v| - 1 ensures net'.SendsTo(v[i], v[i + 1]) {
      assert net.SendsTo(v[i], v[i + 1]);
    }
    var w := [p] + v;
    forall i | 0 <= i < |w| - 1 ensures net'.SendsTo(w[i], w[i + 1]) {
      if i > 0 { assert net'.SendsTo(v[i - 1], v[i]); }
    }
    assert Walk(net', w);
  }
}
