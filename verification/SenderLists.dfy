/** The linked sender queues as a picture of the pointers: the head of every process's list and
    the next link of every process, as process numbers with -1 for null. */
module SenderLists {
  import opened Rendezvous

  const NULL := -1

  function At(q: seq<nat>, i: nat): int {
    if i < |q| then q[i] else NULL
  }

  /** The list from head through links runs over exactly q, in order. */
  ghost predicate List(head: int, links: seq<int>, q: seq<nat>) {
    && head == At(q, 0)
    && (forall i :: 0 <= i < |q| ==> q[i] < |links|)
    && (forall i {:trigger links[q[i]]} :: 0 <= i < |q| && q[i] < |links| ==> links[q[i]] == At(q, i + 1))
  }

  ghost predicate Lists(heads: seq<int>, links: seq<int>, queues: seq<seq<nat>>) {
    && |heads| == |links| == |queues|
    && (forall d :: 0 <= d < |queues| ==> List(heads[d], links, queues[d]))
  }

  /** No process is in two queues or twice in one: home says whose queue a process is in. */
  ghost predicate Homed(home: seq<int>, queues: seq<seq<nat>>) {
    && (forall d, i :: 0 <= d < |queues| && 0 <= i < |queues[d]| ==>
          queues[d][i] < |home| && home[queues[d][i]] == d)
    && (forall d :: 0 <= d < |queues| ==> NoDuplicates(queues[d]))
  }

  /** A process that is in no queue may be given any home. */
  lemma NewHome(home: seq<int>, queues: seq<seq<nat>>, p: nat, d: int)
    requires Homed(home, queues) && p < |home|
    requires forall e, i :: 0 <= e < |queues| && 0 <= i < |queues[e]| ==> queues[e][i] != p
    ensures Homed(home[p := d], queues)
  {
  }

  /** Writing links of processes homed at d leaves every other list alone. */
  lemma OtherLists(heads: seq<int>, links: seq<int>, links': seq<int>, queues: seq<seq<nat>>, home: seq<int>, d: nat)
    requires Lists(heads, links, queues) && Homed(home, queues) && |links'| == |links|
    requires forall p :: 0 <= p < |links| && links'[p] != links[p] ==> p < |home| && home[p] == d
    ensures forall e :: 0 <= e < |queues| && e != d ==> List(heads[e], links', queues[e])
  {
    forall e, i | 0 <= e < |queues| && e != d && 0 <= i < |queues[e]|
      ensures queues[e][i] < |links| && links'[queues[e][i]] == links[queues[e][i]]
    {
      assert List(heads[e], links, queues[e]);
    }
  }

  /** Hanging p after the last element, or at the head of an empty list, appends it to the queue. */
  lemma AppendAt(head: int, links: seq<int>, q: seq<nat>, p: nat)
    requires List(head, links, q) && p < |links| && p !in q && NoDuplicates(q)
    ensures q == [] ==> List(p, links[p := NULL], q + [p])
    ensures q != [] ==> q[|q| - 1] < |links| && List(head, links[q[|q| - 1] := p][p := NULL], q + [p])
  {
  }

  /** The heads and links once p hangs at the end of the list q of d. */
  function HeadsWith(heads: seq<int>, q: seq<nat>, d: nat, p: nat): seq<int>
    requires d < |heads|
  {
    if q == [] then heads[d := p] else heads
  }

  function LinksWith(links: seq<int>, q: seq<nat>, p: nat): seq<int>
    requires p < |links| && (q != [] ==> q[|q| - 1] < |links|)
  {
    (if q == [] then links else links[q[|q| - 1] := p])[p := NULL]
  }

  lemma Append(heads: seq<int>, links: seq<int>, queues: seq<seq<nat>>, home: seq<int>, d: nat, p: nat)
    requires Lists(heads, links, queues) && Homed(home, queues) && |home| == |links|
    requires d < |queues| && p < |links| && home[p] == d && p !in queues[d]
    ensures d < |heads| && (queues[d] != [] ==> queues[d][|queues[d]| - 1] < |links|)
    ensures Lists(HeadsWith(heads, queues[d], d, p), LinksWith(links, queues[d], p), queues[d := queues[d] + [p]])
  {
    var q := queues[d];
    AppendAt(heads[d], links, q, p);
    var links' := if q == [] then links[p := NULL] else links[q[|q| - 1] := p][p := NULL];
    assert q != [] ==> home[queues[d][|q| - 1]] == d;
    OtherLists(heads, links, links', queues, home, d);
  }

  /** Passing the link of the element at position k back to its predecessor unlinks it. */
  lemma UnlinkAt(head: int, links: seq<int>, q: seq<nat>, k: nat)
    requires List(head, links, q) && k < |q| && NoDuplicates(q)
    ensures k == 0 ==> List(links[q[k]], links[q[k] := NULL], q[1..])
    ensures k > 0 ==> List(head, links[q[k - 1] := links[q[k]]][q[k] := NULL], q[..k] + q[k + 1..])
  {
    if k > 0 {
      var q' := q[..k] + q[k + 1..];
      var links' := links[q[k - 1] := links[q[k]]][q[k] := NULL];
      forall i | 0 <= i < |q'| ensures links'[q'[i]] == At(q', i + 1) {
        var j := if i < k then i else i + 1;
        assert q'[i] == q[j];
        assert links[q[j]] == At(q, j + 1);
      }
    }
  }

  /** The heads and links once entry k is taken out of the list q of d. */
  function HeadsWithout(heads: seq<int>, links: seq<int>, q: seq<nat>, d: nat, k: nat): seq<int>
    requires d < |heads| && k < |q| && q[k] < |links|
  {
    if k == 0 then heads[d := links[q[0]]] else heads
  }

  function LinksWithout(links: seq<int>, q: seq<nat>, k: nat): seq<int>
    requires k < |q| && q[k] < |links| && (k > 0 ==> q[k - 1] < |links|)
  {
    (if k == 0 then links else links[q[k - 1] := links[q[k]]])[q[k] := NULL]
  }

  lemma Unlink(heads: seq<int>, links: seq<int>, queues: seq<seq<nat>>, home: seq<int>, d: nat, k: nat)
    requires Lists(heads, links, queues) && Homed(home, queues)
    requires d < |queues| && k < |queues[d]|
    ensures var q := queues[d];
      && d < |heads| && q[k] < |links| && (k > 0 ==> q[k - 1] < |links|)
      && Lists(HeadsWithout(heads, links, q, d, k), LinksWithout(links, q, k), queues[d := q[..k] + q[k + 1..]])
  {
    var q := queues[d];
    UnlinkAt(heads[d], links, q, k);
    assert home[queues[d][k]] == d && (k > 0 ==> home[queues[d][k - 1]] == d);
    OtherLists(heads, links, LinksWithout(links, q, k), queues, home, d);
    assert q[..0] + q[1..] == q[1..];
  }
}
