/** Texts of several lines on a console: where each line stands, and that nothing else changes. */
module ConsoleLines {
  import opened Numbers
  import opened Keyboard
  import opened Console

  /** Where a newline takes a cursor: to the start of the next row, and in the last row nowhere. */
  predicate NextLine(con: Con, cursor: int, next: int) {
    if cursor < con.memEnd - WIDTH
    then (next - con.memStart) % WIDTH == 0 && cursor < next <= cursor + WIDTH
    else next == cursor
  }

  lemma Newline(vram: seq<int>, con: Con)
    requires 0 <= con.memStart && con.memEnd <= |vram| && ConInv(con)
    ensures NextLine(con, con.cursor, Printed(con, NEWLINE).cursor)
    ensures Painted(vram, con, NEWLINE) == vram
  {
    RowsApart(0, (con.cursor - con.memStart) / WIDTH + 1);
  }

  lemma NextLineUnique(con: Con, cursor: int, x: int, y: int)
    requires NextLine(con, cursor, x) && NextLine(con, cursor, y)
    ensures x == y
  {
    var a, b := (x - con.memStart) / WIDTH, (y - con.memStart) / WIDTH;
    assert cursor < con.memEnd - WIDTH ==> x - y == WIDTH * (a - b) && -WIDTH < x - y < WIDTH;
  }

  // ---------------------------------------------------------------- a text and its places

  /** Lines joined by newlines. */
  function Text(lines: seq<seq<Byte>>): seq<Byte>
    requires lines != []
  {
    if |lines| == 1 then lines[0] else lines[0] + [NEWLINE] + Text(lines[1..])
  }

  predicate PlainLines(lines: seq<seq<Byte>>) {
    forall k :: 0 <= k < |lines| ==> PlainBytes(lines[k])
  }

  /** Behind the last cell of a line, which is cut before the last cell of the slice. */
  function EndOf(con: Con, at: int, line: seq<Byte>): int {
    if at + |line| < con.memEnd - 1 then at + |line| else con.memEnd - 1
  }

  /** The first line starts at the cursor, and each of the others where a newline behind the one
      before it takes the cursor. */
  predicate Placed(con: Con, lines: seq<seq<Byte>>, at: seq<int>) {
    && |at| == |lines| > 0 && at[0] == con.cursor
    && forall k :: 0 < k < |at| ==> NextLine(con, EndOf(con, at[k - 1], lines[k - 1]), at[k])
  }

  predicate Within(con: Con, line: seq<Byte>, at: int, cell: int) {
    at <= cell < EndOf(con, at, line)
  }

  /** Every line stands at its place, as far as there is room. */
  predicate Shown(v: seq<int>, con: Con, lines: seq<seq<Byte>>, at: seq<int>)
    requires |at| == |lines| && con.memEnd <= |v|
  {
    forall k, cell :: 0 <= k < |lines| && 0 <= cell < con.memEnd && Within(con, lines[k], at[k], cell) ==>
      v[cell] == Cell(lines[k][cell - at[k]])
  }

  predicate Elsewhere(con: Con, lines: seq<seq<Byte>>, at: seq<int>, cell: int)
    requires |at| == |lines|
  {
    forall k :: 0 <= k < |lines| ==> !Within(con, lines[k], at[k], cell)
  }

  predicate OthersSame(v: seq<int>, w: seq<int>, con: Con, lines: seq<seq<Byte>>, at: seq<int>)
    requires |at| == |lines|
  {
    |v| == |w| && forall cell :: 0 <= cell < |v| && Elsewhere(con, lines, at, cell) ==> w[cell] == v[cell]
  }

  // ---------------------------------------------------------------- one line at a time

  lemma PaintedStep(vram: seq<int>, con: Con, text: seq<Byte>)
    requires 0 <= con.memStart && con.memEnd <= |vram| && ConInv(con) && text != []
    ensures ConInv(Printed(con, text[0])) && |Painted(vram, con, text[0])| == |vram|
    ensures PaintedAll(vram, con, text) ==
      PaintedAll(Painted(vram, con, text[0]), Printed(con, text[0]), text[1..])
  {
    PrintedKeeps(con, text[0]);
    MovedKeeps(con, text[0]);
    WindowDoesNotPaint(Painted(vram, con, text[0]), Moved(con, text[0]), Printed(con, text[0]).start, text[1..]);
  }

  /** A text in two parts is painted part by part. */
  lemma {:induction false} PaintedParts(vram: seq<int>, con: Con, a: seq<Byte>, b: seq<Byte>)
    requires 0 <= con.memStart && con.memEnd <= |vram| && ConInv(con)
    ensures var mid := PrintedAll(con, a);
      && ConInv(mid) && mid.memStart == con.memStart && mid.memEnd == con.memEnd
      && |PaintedAll(vram, con, a)| == |vram|
      && PrintedAll(con, a + b) == PrintedAll(mid, b)
      && PaintedAll(vram, con, a + b) == PaintedAll(PaintedAll(vram, con, a), mid, b)
    decreases |a|
  {
    if a == [] {
      assert a + b == b;
    } else {
      PaintedStep(vram, con, a);
      PaintedStep(vram, con, a + b);
      assert (a + b)[1..] == a[1..] + b;
      PaintedParts(Painted(vram, con, a[0]), Printed(con, a[0]), a[1..], b);
    }
  }

  lemma OneLine(vram: seq<int>, con: Con, line: seq<Byte>, rest: seq<Byte>)
    requires 0 <= con.memStart && con.memEnd <= |vram| && ConInv(con) && PlainBytes(line)
    ensures var next := PrintedAll(con, line + [NEWLINE]);
      && ConInv(next) && next.memStart == con.memStart && next.memEnd == con.memEnd
      && NextLine(con, EndOf(con, con.cursor, line), next.cursor)
      && PrintedAll(con, line + [NEWLINE] + rest) == PrintedAll(next, rest)
      && |PaintedAll(vram, con, line)| == |vram|
      && PaintedAll(vram, con, line + [NEWLINE] + rest) == PaintedAll(PaintedAll(vram, con, line), next, rest)
  {
    PaintedParts(vram, con, line + [NEWLINE], rest);
    PaintedParts(vram, con, line, [NEWLINE]);
    PlainCursor(con, line);
    var mid, v := PrintedAll(con, line), PaintedAll(vram, con, line);
    Newline(v, mid);
    PaintedStep(v, mid, [NEWLINE]);
    assert [NEWLINE][1..] == [];
  }

  lemma LinePainted(vram: seq<int>, con: Con, line: seq<Byte>, cell: int)
    requires 0 <= con.memStart && con.memEnd <= |vram| && ConInv(con) && PlainBytes(line) && 0 <= cell < |vram|
    ensures |PaintedAll(vram, con, line)| == |vram|
    ensures PaintedAll(vram, con, line)[cell] ==
      if Within(con, line, con.cursor, cell) then Cell(line[cell - con.cursor]) else vram[cell]
  {
    PlainText(vram, con, line);
  }

  lemma {:induction false} PlacesGrow(con: Con, lines: seq<seq<Byte>>, at: seq<int>, k: nat)
    requires Placed(con, lines, at) && 0 < k < |at| && con.cursor < con.memEnd
    ensures at[k] >= EndOf(con, at[0], lines[0]) && at[k - 1] < con.memEnd && at[k] < con.memEnd
  {
    if k > 1 { PlacesGrow(con, lines, at, k - 1); }
    assert NextLine(con, EndOf(con, at[k - 1], lines[k - 1]), at[k]);
  }

  // ---------------------------------------------------------------- the whole text

  /** Every line of a text appears at its place, in a row of its own as long as there is a row
      left, and nothing else changes. */
  lemma {:induction false} TextInLines(vram: seq<int>, con: Con, lines: seq<seq<Byte>>, at: seq<int>)
    requires 0 <= con.memStart && con.memEnd <= |vram| && ConInv(con) && PlainLines(lines) && Placed(con, lines, at)
    ensures PrintedAll(con, Text(lines)).cursor == EndOf(con, at[|at| - 1], lines[|at| - 1])
    ensures |PaintedAll(vram, con, Text(lines))| == |vram|
    ensures Shown(PaintedAll(vram, con, Text(lines)), con, lines, at)
    ensures OthersSame(vram, PaintedAll(vram, con, Text(lines)), con, lines, at)
    decreases |lines|
  {
    var line := lines[0];
    PlainCursor(con, line);
    var v := PaintedAll(vram, con, line);
    if |lines| == 1 {
      OnlyLine(vram, con, lines, at);
    } else {
      var rest := Text(lines[1..]);
      OneLine(vram, con, line, rest);
      var next := PrintedAll(con, line + [NEWLINE]);
      NextLineUnique(con, EndOf(con, con.cursor, line), next.cursor, at[1]);
      PlacedRest(con, next, lines, at);
      TextInLines(v, next, lines[1..], at[1..]);
      Assembled(vram, v, PaintedAll(v, next, rest), con, next, lines, at);
    }
  }

  lemma OnlyLine(vram: seq<int>, con: Con, lines: seq<seq<Byte>>, at: seq<int>)
    requires 0 <= con.memStart && con.memEnd <= |vram| && ConInv(con) && PlainLines(lines)
    requires |lines| == 1 && Placed(con, lines, at)
    ensures |PaintedAll(vram, con, lines[0])| == |vram|
    ensures Shown(PaintedAll(vram, con, lines[0]), con, lines, at)
    ensures OthersSame(vram, PaintedAll(vram, con, lines[0]), con, lines, at)
  {
    LinePainted(vram, con, lines[0], con.cursor);
    var v := PaintedAll(vram, con, lines[0]);
    forall cell | 0 <= cell < con.memEnd && Within(con, lines[0], at[0], cell)
      ensures v[cell] == Cell(lines[0][cell - at[0]])
    {
      LinePainted(vram, con, lines[0], cell);
    }
    forall cell | 0 <= cell < |vram| && Elsewhere(con, lines, at, cell) ensures v[cell] == vram[cell] {
      LinePainted(vram, con, lines[0], cell);
      assert !Within(con, lines[0], at[0], cell);
    }
  }

  lemma PlacedRest(con: Con, next: Con, lines: seq<seq<Byte>>, at: seq<int>)
    requires Placed(con, lines, at) && |lines| > 1 && next.memStart == con.memStart && next.memEnd == con.memEnd
    requires next.cursor == at[1]
    ensures Placed(next, lines[1..], at[1..])
  {
    forall k | 0 < k < |at[1..]| ensures NextLine(next, EndOf(next, at[1..][k - 1], lines[1..][k - 1]), at[1..][k]) {
      assert NextLine(con, EndOf(con, at[k], lines[k]), at[k + 1]);
    }
  }

  /** The first line, and then the others without touching it. */
  lemma Assembled(vram: seq<int>, v: seq<int>, w: seq<int>, con: Con, next: Con, lines: seq<seq<Byte>>, at: seq<int>)
    requires 0 <= con.memStart && con.memEnd <= |vram| == |v| == |w| && ConInv(con) && PlainLines(lines)
    requires Placed(con, lines, at) && |lines| > 1 && next.memStart == con.memStart && next.memEnd == con.memEnd
    requires v == PaintedAll(vram, con, lines[0])
    requires Shown(w, next, lines[1..], at[1..]) && OthersSame(v, w, next, lines[1..], at[1..])
    ensures Shown(w, con, lines, at) && OthersSame(vram, w, con, lines, at)
  {
    forall k, cell | 0 <= k < |lines| && 0 <= cell < con.memEnd && Within(con, lines[k], at[k], cell)
      ensures w[cell] == Cell(lines[k][cell - at[k]])
    {
      if k == 0 {
        LinePainted(vram, con, lines[0], cell);
        BeforeTheOthers(con, next, lines, at, cell);
      } else {
        assert Within(next, lines[1..][k - 1], at[1..][k - 1], cell);
      }
    }
    forall cell | 0 <= cell < |vram| && Elsewhere(con, lines, at, cell) ensures w[cell] == vram[cell] {
      LinePainted(vram, con, lines[0], cell);
      ElsewhereToo(con, next, lines, at, cell);
    }
  }

  lemma BeforeTheOthers(con: Con, next: Con, lines: seq<seq<Byte>>, at: seq<int>, cell: int)
    requires Placed(con, lines, at) && |lines| > 1 && con.cursor < con.memEnd == next.memEnd
    requires Within(con, lines[0], at[0], cell)
    ensures Elsewhere(next, lines[1..], at[1..], cell)
  {
    forall k | 0 <= k < |lines[1..]| ensures !Within(next, lines[1..][k], at[1..][k], cell) {
      PlacesGrow(con, lines, at, k + 1);
    }
  }

  lemma ElsewhereToo(con: Con, next: Con, lines: seq<seq<Byte>>, at: seq<int>, cell: int)
    requires |at| == |lines| > 1 && next.memEnd == con.memEnd && Elsewhere(con, lines, at, cell)
    ensures Elsewhere(next, lines[1..], at[1..], cell) && !Within(con, lines[0], at[0], cell)
  {
    forall k | 0 <= k < |lines[1..]| ensures !Within(next, lines[1..][k], at[1..][k], cell) {
      assert !Within(con, lines[k + 1], at[k + 1], cell);
    }
  }

  /** There are such places for every text. */
  lemma {:induction false} PlacesExist(con: Con, lines: seq<seq<Byte>>) returns (at: seq<int>)
    requires lines != []
    ensures Placed(con, lines, at)
    decreases |lines|
  {
    at := [con.cursor];
    if |lines| > 1 {
      var end := EndOf(con, con.cursor, lines[0]);
      var next := NextPlace(con, end);
      var rest := PlacesExist(con.(cursor := next), lines[1..]);
      at := at + rest;
      forall k | 0 < k < |at| ensures NextLine(con, EndOf(con, at[k - 1], lines[k - 1]), at[k]) {
        if k > 1 {
          assert NextLine(con.(cursor := next), EndOf(con.(cursor := next), rest[k - 2], lines[1..][k - 2]), rest[k - 1]);
        }
      }
    }
  }

  lemma NextPlace(con: Con, cursor: int) returns (next: int)
    ensures NextLine(con, cursor, next)
  {
    next := cursor;
    if cursor < con.memEnd - WIDTH {
      next := con.memStart + WIDTH * ((cursor - con.memStart) / WIDTH + 1);
      RowsApart(0, (cursor - con.memStart) / WIDTH + 1);
    }
  }
}
