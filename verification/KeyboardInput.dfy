/** The keyboard from the wire to the decoder: the interrupt handler puts the bytes into a ring of
    32, dropping what does not fit, and the decoder takes them out. */
module KeyboardInput {
  import opened Numbers
  import opened Keyboard
  import opened RingBuffer

  const KB_IN_BUF_LENGTH := 32

  const EMPTY := Fifo([], [], [])

  function After32(ops: seq<Op>): Fifo {
    ApplyAll(EMPTY, KB_IN_BUF_LENGTH, ops)
  }

  /** What the keyboard sent, whether it found room or not. */
  function SentBytes(ops: seq<Op>): seq<int> {
    if ops == [] then []
    else SentBytes(ops[..|ops| - 1]) + (if ops[|ops| - 1].Put? then [ops[|ops| - 1].x] else [])
  }

  /** Every byte that arrived found room. */
  predicate NothingDropped(ops: seq<Op>) {
    forall k :: 0 <= k < |ops| && ops[k].Put? ==> |After32(ops[..k]).items| < KB_IN_BUF_LENGTH
  }

  /** The decoder is offered what was sent exactly when nothing was dropped. */
  lemma {:induction false} AcceptedIsSent(ops: seq<Op>)
    ensures |After32(ops).accepted| <= |SentBytes(ops)|
    ensures After32(ops).accepted == SentBytes(ops) <==> NothingDropped(ops)
    ensures NothingDropped(ops) || |After32(ops).accepted| < |SentBytes(ops)|
  {
    if ops != [] {
      var before, op := ops[..|ops| - 1], ops[|ops| - 1];
      AcceptedIsSent(before);
      assert forall k :: 0 <= k < |before| ==> ops[..k] == before[..k] && ops[k] == before[k];
      assert NothingDropped(ops) <==>
        NothingDropped(before) && (op.Put? ==> |After32(before).items| < KB_IN_BUF_LENGTH);
    }
  }

  // ---------------------------------------------------------------- a stream cut off anywhere

  /** How many items a prefix of n bytes of the stream holds whole. */
  function Whole(items: seq<Item>, n: nat): (k: nat)
    requires n <= |Stream(items)|
    ensures k <= |items| && |Stream(items[..k])| <= n
    decreases |items|
  {
    if items == [] || n < |BytesOf(items[0])| then 0
    else
      var k := Whole(items[1..], n - |BytesOf(items[0])|);
      assert items[..k + 1][0] == items[0] && items[..k + 1][1..] == items[1..][..k];
      k + 1
  }

  /** The items in n bytes handled, and the bytes of the next one left. */
  function Handled(rows: KeyMap, st: State, items: seq<Item>, n: nat, keys: seq<int>): Session
    requires n <= |Stream(items)|
  {
    var k := Whole(items, n);
    var done := Items(rows, st, items[..k], keys);
    Session(done.0, Stream(items)[|Stream(items[..k])|..n], done.1)
  }

  /** However far the bytes have come, the decoder has handled the items they hold whole, stored
      their keys, and waits within the next. */
  lemma {:induction false} CutAnywhere(rows: KeyMap, st: State, items: seq<Item>, n: nat, keys: seq<int>)
    requires (forall i :: 0 <= i < |items| ==> Sent(items[i])) && n <= |Stream(items)|
    ensures CallsOn(rows, st, items, n, keys) == Handled(rows, st, items, n, keys)
    decreases |items|
  {
    if items == [] || n < |BytesOf(items[0])| {
      Unfinished(rows, st, items, n, keys);
    } else {
      var r, used := After(rows, st, items[0]), |BytesOf(items[0])|;
      FirstCall(rows, st, items, n, keys);
      HandledFirst(rows, st, items, n, keys);
      CutAnywhere(rows, r.st, items[1..], n - used, Keys(keys, r));
    }
  }

  /** A call for each item, on the bytes that have come. */
  function CallsOn(rows: KeyMap, st: State, items: seq<Item>, n: nat, keys: seq<int>): Session
    requires n <= |Stream(items)|
  {
    Calls(rows, Session(st, Stream(items)[..n], keys), |items|)
  }

  lemma HandledFirst(rows: KeyMap, st: State, items: seq<Item>, n: nat, keys: seq<int>)
    requires items != [] && Sent(items[0]) && |BytesOf(items[0])| <= n <= |Stream(items)|
    ensures var r, used := After(rows, st, items[0]), |BytesOf(items[0])|;
      && r.Read? && n - used <= |Stream(items[1..])|
      && Handled(rows, st, items, n, keys) == Handled(rows, r.st, items[1..], n - used, Keys(keys, r))
  {
    var used, rest := |BytesOf(items[0])|, items[1..];
    var k := Whole(rest, n - used);
    assert Whole(items, n) == k + 1 && Stream(items) == BytesOf(items[0]) + Stream(rest);
    FirstItem(rows, st, items, k, keys);
    var at := |Stream(rest[..k])|;
    Leftover(BytesOf(items[0]), Stream(rest), at, n);
    assert Stream(items)[|Stream(items[..k + 1])|..n] == Stream(rest)[at..n - used];
  }

  /** The first item is not there, or not whole: the decoder waits. */
  lemma Unfinished(rows: KeyMap, st: State, items: seq<Item>, n: nat, keys: seq<int>)
    requires if items == [] then n == 0 else Sent(items[0]) && n < |BytesOf(items[0])|
    ensures n <= |Stream(items)| && Whole(items, n) == 0
    ensures CallsOn(rows, st, items, n, keys) == Handled(rows, st, items, n, keys)
  {
    assert items[..0] == [];
    if items != [] {
      PrefixWaits(rows, st, items[0], n);
      assert Stream(items)[..n] == BytesOf(items[0])[..n];
    }
  }

  function Keys(keys: seq<int>, r: Reading): seq<int> {
    if r.Read? && r.stored.Some? then keys + [r.stored.value] else keys
  }

  /** The first item is there whole: one call handles it. */
  lemma FirstCall(rows: KeyMap, st: State, items: seq<Item>, n: nat, keys: seq<int>)
    requires items != [] && Sent(items[0]) && |BytesOf(items[0])| <= n <= |Stream(items)|
    ensures var r, used := After(rows, st, items[0]), |BytesOf(items[0])|;
      && r.Read? && n - used <= |Stream(items[1..])|
      && CallsOn(rows, st, items, n, keys) == CallsOn(rows, r.st, items[1..], n - used, Keys(keys, r))
  {
    var used := |BytesOf(items[0])|;
    var bytes, tail := Stream(items)[..n], Stream(items[1..])[..n - used];
    assert bytes == BytesOf(items[0]) + tail;
    OneItemPerCall(rows, st, items[0], tail);
    assert bytes[used..] == tail;
    CallsOnce(rows, Session(st, bytes, keys), |items|);
  }

  lemma CallsOnce(rows: KeyMap, s: Session, n: nat)
    requires n > 0 && ReadOne(rows, s.st, s.bytes).Read? && ReadOne(rows, s.st, s.bytes).used <= |s.bytes|
    ensures var r := ReadOne(rows, s.st, s.bytes);
      Calls(rows, s, n) == Calls(rows, Session(r.st, s.bytes[r.used..], Keys(s.keys, r)), n - 1)
  {
    assert s.keys + [] == s.keys;
  }

  lemma FirstItem(rows: KeyMap, st: State, items: seq<Item>, k: nat, keys: seq<int>)
    requires items != [] && Sent(items[0]) && k < |items|
    ensures var r := After(rows, st, items[0]);
      r.Read? && Items(rows, st, items[..k + 1], keys) == Items(rows, r.st, items[1..][..k], Keys(keys, r))
    ensures |Stream(items[..k + 1])| == |BytesOf(items[0])| + |Stream(items[1..][..k])|
  {
    OneItemPerCall(rows, st, items[0], []);
    var some := items[..k + 1];
    assert some[0] == items[0] && some[1..] == items[1..][..k];
    assert keys + [] == keys;
  }

  lemma Leftover(a: seq<Byte>, b: seq<Byte>, i: nat, n: nat)
    requires |a| + i <= n <= |a| + |b|
    ensures (a + b)[|a| + i..n] == b[i..n - |a|]
  {
  }

  // ---------------------------------------------------------------- the whole way

  /** With the shipped map, whatever the interleaving of the interrupt handler and the decoder: if
      the keyboard sent these items and nothing was dropped, then from what it has taken out the
      decoder has handled a prefix of the items, each modifier is as that prefix left it, and when
      the ring is empty the prefix is all of them. */
  lemma RingSession(items: seq<Item>, ops: seq<Op>, m: Modifier)
    requires (forall i :: 0 <= i < |items| ==> Sent(items[i])) && SentBytes(ops) == Stream(items) && NothingDropped(ops)
    ensures var f := After32(ops);
      && f.taken <= Stream(items)
      && var k := Whole(items, |f.taken|);
         var s := CallsOn(Row, INITIAL, items, |f.taken|, []);
         && s.keys == Items(Row, INITIAL, items[..k], []).1
         && Held(s.st.shifts, m) == LastPress(items[..k], m, false)
         && (f.items == [] ==> k == |items| && s.bytes == [])
  {
    TakenIsPrefix(items, ops);
    DecodedPrefix(items, |After32(ops).taken|, m);
    AllWhole(items);
  }

  lemma TakenIsPrefix(items: seq<Item>, ops: seq<Op>)
    requires SentBytes(ops) == Stream(items) && NothingDropped(ops)
    ensures var f := After32(ops); f.taken <= Stream(items) && (f.items == [] ==> |f.taken| == |Stream(items)|)
  {
    AcceptedIsSent(ops);
    AnyInterleaving(KB_IN_BUF_LENGTH, ops);
  }

  lemma DecodedPrefix(items: seq<Item>, n: nat, m: Modifier)
    requires (forall i :: 0 <= i < |items| ==> Sent(items[i])) && n <= |Stream(items)|
    ensures var k, s := Whole(items, n), CallsOn(Row, INITIAL, items, n, []);
      && s.keys == Items(Row, INITIAL, items[..k], []).1
      && Held(s.st.shifts, m) == LastPress(items[..k], m, false)
      && s.bytes == Stream(items)[|Stream(items[..k])|..n]
  {
    var some := items[..Whole(items, n)];
    CutAnywhere(Row, INITIAL, items, n, []);
    KeyMapIsWellKeyed();
    ModifierIsLastPress(Row, INITIAL, some, [], m);
  }

  lemma {:induction false} AllWhole(items: seq<Item>)
    ensures Whole(items, |Stream(items)|) == |items| && items[..|items|] == items
    decreases |items|
  {
    if items != [] { AllWhole(items[1..]); }
  }
}
