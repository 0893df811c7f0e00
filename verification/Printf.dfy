/** `vsprintf`: a format read character by character, against the same text built from its parts. */
module Printf {
  import opened Numbers
  import opened Sequences
  import opened Format

  datatype Arg = Word(v: Int32) | Str(s: seq<Char>)

  const TMP := 256

  // ---------------------------------------------------------------- what is printed

  function DigitRun(s: seq<Char>): (n: nat)
    ensures n <= |s| && (forall k :: 0 <= k < n ==> ZERO <= s[k] <= NINE)
    ensures n < |s| ==> !(ZERO <= s[n] <= NINE)
  {
    if s != [] && ZERO <= s[0] <= NINE then 1 + DigitRun(s[1..]) else 0
  }

  /** A field after its percent sign: the zero flag, the width, the conversion, and how many
      characters it took. */
  datatype Spec = Spec(zero: bool, width: int, conv: Char, used: nat)

  predicate HasSpec(s: seq<Char>) {
    s != [] && DigitRun(if s[0] == ZERO then s[1..] else s) < |s| - (if s[0] == ZERO then 1 else 0)
  }

  function SpecOf(s: seq<Char>): Spec
    requires HasSpec(s)
  {
    var zero := s[0] == ZERO;
    var body := if zero then s[1..] else s;
    var n := DigitRun(body);
    Spec(zero, Horner(body[..n]), body[n], n + if zero then 2 else 1)
  }

  predicate Takes(conv: Char) {
    conv == LOWER_X || conv == LOWER_D || conv == LOWER_C || conv == LOWER_S
  }

  /** The argument a conversion can do with. */
  predicate Fits(conv: Char, arg: Arg) {
    if conv == LOWER_S then arg.Str? && |arg.s| < TMP && NUL !in arg.s
    else arg.Word?
  }

  function LowChar(v: Int32): Char {
    if v % 256 < 128 then v % 256 else v % 256 - 256
  }

  function FieldText(conv: Char, arg: Arg): seq<Char>
    requires Takes(conv) && Fits(conv, arg)
  {
    if conv == LOWER_X then Text(arg.v, 16)
    else if conv == LOWER_D then Text(arg.v, 10)
    else if conv == LOWER_C then if LowChar(arg.v) == NUL then [] else [LowChar(arg.v)]
    else arg.s
  }

  /** What the conversions print: %x and %d the number in radix 16 and 10, %c the low byte as a
      character, %s the string. */
  lemma FieldSays(conv: Char, arg: Arg)
    requires Takes(conv) && Fits(conv, arg)
    ensures var t := FieldText(conv, arg);
      && (conv == 'x' as int ==> Says(arg.v, 16, t))
      && (conv == 'd' as int ==> Says(arg.v, 10, t))
      && (conv == 'c' as int ==>
        if arg.v % 256 == 0 then t == [] else |t| == 1 && t[0] != 0 && (arg.v - t[0]) % 256 == 0)
      && (conv == 's' as int ==> t == arg.s)
  {
    if conv == LOWER_X { NumberSays(arg.v, 16); }
    if conv == LOWER_D { NumberSays(arg.v, 10); }
  }

  lemma NumberSays(v: Int32, radix: nat)
    requires 2 <= radix <= 36
    ensures Says(v, radix, Text(v, radix))
  {
    if v != -TWO31 { TextSays(v, radix); }
  }

  /** t writes v in this radix, negative values with a minus in front; the lowest value is LowestText's. */
  predicate Says(v: Int32, radix: nat, t: seq<Char>)
    requires 2 <= radix <= 36
  {
    if v >= 0 then Canonical(t, radix) && Number(t, radix) == v
    else if v > -TWO31 then t != [] && t[0] == '-' as int && Canonical(t[1..], radix) && Number(t[1..], radix) == -v
    else t == Text(v, radix)
  }

  function Fill(c: Char, n: nat): (s: seq<Char>)
    ensures |s| == n && forall k :: 0 <= k < n ==> s[k] == c
  {
    seq(n, _ => c)
  }

  /** A field is as wide as asked for or as its text, whichever is more. */
  function Padded(zero: bool, width: int, text: seq<Char>): (s: seq<Char>)
    ensures |s| == if width > |text| then width else |text|
    ensures s[|s| - |text|..] == text
    ensures forall k :: 0 <= k < |s| - |text| ==> s[k] == (if zero then '0' else ' ') as int
  {
    if |text| < width then Fill(if zero then ZERO else SPACE, width - |text|) + text else text
  }

  predicate Served(spec: Spec, args: seq<Arg>) {
    Takes(spec.conv) ==> args != [] && Fits(spec.conv, args[0])
  }

  function FieldOutput(spec: Spec, args: seq<Arg>): seq<Char>
    requires Served(spec, args)
  {
    Padded(spec.zero, spec.width, if Takes(spec.conv) then FieldText(spec.conv, args[0]) else [])
  }

  /** The arguments behind a field's own. */
  function Left(spec: Spec, args: seq<Arg>): seq<Arg>
    requires Served(spec, args)
  {
    if Takes(spec.conv) then args[1..] else args
  }

  /** A format in which every field has its conversion and every conversion its argument. */
  predicate WellFormed(fmt: seq<Char>, args: seq<Arg>)
    decreases |fmt|
  {
    if fmt == [] then true
    else if fmt[0] != PERCENT then WellFormed(fmt[1..], args)
    else if fmt[1..] != [] && fmt[1] == PERCENT then WellFormed(fmt[2..], args)
    else
      HasSpec(fmt[1..]) &&
      var spec := SpecOf(fmt[1..]);
      Served(spec, args) && WellFormed(fmt[1..][spec.used..], Left(spec, args))
  }

  function Render(fmt: seq<Char>, args: seq<Arg>): seq<Char>
    requires WellFormed(fmt, args)
    decreases |fmt|
  {
    if fmt == [] then []
    else if fmt[0] != PERCENT then [fmt[0]] + Render(fmt[1..], args)
    else if fmt[1..] != [] && fmt[1] == PERCENT then [PERCENT] + Render(fmt[2..], args)
    else
      var spec := SpecOf(fmt[1..]);
      FieldOutput(spec, args) + Render(fmt[1..][spec.used..], Left(spec, args))
  }

  // ---------------------------------------------------------------- the parts of a format

  datatype Piece = Plain(c: Char) | Percent | Field(zero: bool, width: nat, conv: Char, arg: Arg)

  predicate Proper(piece: Piece) {
    match piece
    case Plain(c) => c != PERCENT
    case Percent => true
    case Field(_, _, conv, arg) => Takes(conv) && Fits(conv, arg)
  }

  function SpecText(zero: bool, width: nat, conv: Char): seq<Char> {
    if zero then [ZERO] + (Width(width) + [conv]) else Width(width) + [conv]
  }

  function PieceText(piece: Piece): seq<Char> {
    match piece
    case Plain(c) => [c]
    case Percent => [PERCENT, PERCENT]
    case Field(zero, width, conv, _) => [PERCENT] + SpecText(zero, width, conv)
  }

  function PieceArgs(piece: Piece): seq<Arg> {
    if piece.Field? then [piece.arg] else []
  }

  /** A field comes out as wide as asked for or as its text, whichever is more: the text at the end,
      and zeros or blanks in front of it. */
  function PieceOutput(piece: Piece): (out: seq<Char>)
    requires Proper(piece)
    ensures piece.Field? ==>
      var text := FieldText(piece.conv, piece.arg);
      |out| == (if piece.width > |text| then piece.width else |text|) && out[|out| - |text|..] == text
      && forall k :: 0 <= k < |out| - |text| ==> out[k] == (if piece.zero then '0' else ' ') as int
  {
    match piece
    case Plain(c) => [c]
    case Percent => [PERCENT]
    case Field(zero, width, conv, arg) => Padded(zero, width, FieldText(conv, arg))
  }

  function FormatOf(pieces: seq<Piece>): seq<Char> {
    if pieces == [] then [] else PieceText(pieces[0]) + FormatOf(pieces[1..])
  }

  function ArgsOf(pieces: seq<Piece>): seq<Arg> {
    if pieces == [] then [] else PieceArgs(pieces[0]) + ArgsOf(pieces[1..])
  }

  function OutputOf(pieces: seq<Piece>): seq<Char>
    requires forall piece :: piece in pieces ==> Proper(piece)
  {
    if pieces == [] then [] else PieceOutput(pieces[0]) + OutputOf(pieces[1..])
  }

  lemma {:induction false} RunOfDigits(s: seq<Char>, rest: seq<Char>)
    requires forall k :: 0 <= k < |s| ==> ZERO <= s[k] <= NINE
    requires rest != [] && !(ZERO <= rest[0] <= NINE)
    ensures DigitRun(s + rest) == |s|
  {
    if s == [] {
      assert s + rest == rest;
    } else {
      assert (s + rest)[1..] == s[1..] + rest;
      RunOfDigits(s[1..], rest);
    }
  }

  function Width(width: nat): seq<Char> {
    if width == 0 then [] else Numeral(width, 10)
  }

  lemma WidthReadsBack(width: nat)
    ensures var digits := Width(width);
      && (forall k :: 0 <= k < |digits| ==> ZERO <= digits[k] <= NINE)
      && Horner(digits) == width && (digits != [] ==> digits[0] != ZERO)
  {
    var digits := Width(width);
    NumeralReads(width, 10);
    forall k | 0 <= k < |digits| ensures ZERO <= digits[k] <= NINE && IsDigit(digits[k], 10) {
      assert IsDigit(Numeral(width, 10)[k], 10);
    }
    HornerIsNumber(digits);
  }

  lemma BodyReadsBack(width: nat, conv: Char, rest: seq<Char>)
    requires Takes(conv)
    ensures var digits, body := Width(width), Width(width) + [conv] + rest;
      && DigitRun(body) == |digits| && body[..|digits|] == digits && Horner(digits) == width
      && body[|digits|] == conv && body[0] != ZERO && body[0] != PERCENT
  {
    var digits := Width(width);
    WidthReadsBack(width);
    RunOfDigits(digits, [conv] + rest);
    assert digits + [conv] + rest == digits + ([conv] + rest);
  }

  /** A field's text reads back as the field, whatever comes behind it. */
  lemma SpecReadsBack(zero: bool, width: nat, conv: Char, rest: seq<Char>)
    requires Takes(conv)
    ensures var s := SpecText(zero, width, conv) + rest;
      && HasSpec(s) && SpecOf(s) == Spec(zero, width, conv, |SpecText(zero, width, conv)|)
      && s[0] != PERCENT
  {
    var body := Width(width) + [conv] + rest;
    BodyReadsBack(width, conv, rest);
    if zero {
      assert (SpecText(zero, width, conv) + rest)[1..] == body;
    }
  }

  lemma RenderSpec(body: seq<Char>, args: seq<Arg>)
    requires HasSpec(body) && body[0] != PERCENT && Served(SpecOf(body), args)
    requires WellFormed(body[SpecOf(body).used..], Left(SpecOf(body), args))
    ensures WellFormed([PERCENT] + body, args)
    ensures Render([PERCENT] + body, args)
      == FieldOutput(SpecOf(body), args) + Render(body[SpecOf(body).used..], Left(SpecOf(body), args))
  {
    Front([PERCENT], body);
  }

  lemma FieldBody(zero: bool, width: nat, conv: Char, arg: Arg, rest: seq<Char>, args: seq<Arg>)
    requires Takes(conv) && Fits(conv, arg)
    ensures var body := SpecText(zero, width, conv) + rest;
      && HasSpec(body) && body[0] != PERCENT
      && Served(SpecOf(body), [arg] + args) && body[SpecOf(body).used..] == rest
      && Left(SpecOf(body), [arg] + args) == args
      && FieldOutput(SpecOf(body), [arg] + args) == Padded(zero, width, FieldText(conv, arg))
  {
    SpecReadsBack(zero, width, conv, rest);
    Front(SpecText(zero, width, conv), rest);
    Front([arg], args);
  }

  lemma RenderField(zero: bool, width: nat, conv: Char, arg: Arg, rest: seq<Char>, args: seq<Arg>)
    requires Takes(conv) && Fits(conv, arg) && WellFormed(rest, args)
    ensures var s := [PERCENT] + SpecText(zero, width, conv) + rest;
      && WellFormed(s, [arg] + args)
      && Render(s, [arg] + args) == Padded(zero, width, FieldText(conv, arg)) + Render(rest, args)
  {
    var body := SpecText(zero, width, conv) + rest;
    FieldBody(zero, width, conv, arg, rest, args);
    RenderSpec(body, [arg] + args);
    Regroup([PERCENT], SpecText(zero, width, conv), rest);
  }

  lemma RenderPlain(c: Char, rest: seq<Char>, args: seq<Arg>)
    requires c != PERCENT && WellFormed(rest, args)
    ensures WellFormed([c] + rest, args) && Render([c] + rest, args) == [c] + Render(rest, args)
  {
    Front([c], rest);
  }

  lemma RenderPercent(rest: seq<Char>, args: seq<Arg>)
    requires WellFormed(rest, args)
    ensures var s := [PERCENT, PERCENT] + rest;
      WellFormed(s, args) && Render(s, args) == [PERCENT] + Render(rest, args)
  {
    Front([PERCENT, PERCENT], rest);
  }

  /** A part in front of a format is printed in front of what that prints. */
  lemma RenderPiece(piece: Piece, rest: seq<Char>, args: seq<Arg>)
    requires Proper(piece) && WellFormed(rest, args)
    ensures WellFormed(PieceText(piece) + rest, PieceArgs(piece) + args)
    ensures Render(PieceText(piece) + rest, PieceArgs(piece) + args) == PieceOutput(piece) + Render(rest, args)
  {
    assert !piece.Field? ==> PieceArgs(piece) + args == args;
    match piece {
      case Plain(c) => RenderPlain(c, rest, args);
      case Percent => RenderPercent(rest, args);
      case Field(zero, width, conv, arg) =>
        RenderField(zero, width, conv, arg, rest, args);
    }
  }

  /** Printing a format is printing its parts one after the other. */
  lemma {:induction false} RendersParts(pieces: seq<Piece>)
    requires forall piece :: piece in pieces ==> Proper(piece)
    ensures WellFormed(FormatOf(pieces), ArgsOf(pieces))
    ensures Render(FormatOf(pieces), ArgsOf(pieces)) == OutputOf(pieces)
  {
    if pieces != [] {
      RendersParts(pieces[1..]);
      assert Proper(pieces[0]);
      RenderPiece(pieces[0], FormatOf(pieces[1..]), ArgsOf(pieces[1..]));
    }
  }

  // ---------------------------------------------------------------- the method

  lemma Pow31()
    ensures Pow2(31) == TWO31
  {
    assert Pow2(8) == 0x100;
    assert Pow2(16) == 0x1_0000;
    assert Pow2(24) == 0x100_0000;
  }

  lemma TextFits(v: Int32, radix: nat)
    requires 2 <= radix <= 36
    ensures |Text(v, radix)| <= 33 && NUL !in Text(v, radix)
  {
    Pow31();
    NumeralFits(Abs(v), radix, 31);
    NoNul(Abs(v), radix);
  }

  lemma NoNul(n: nat, radix: nat)
    requires 2 <= radix <= 36
    ensures NUL !in Numeral(n, radix) && NUL !in Mirrored(Numeral(n, radix))
  {
    NumeralReads(n, radix);
    var s := Numeral(n, radix);
    assert forall k :: 0 <= k < |s| ==> IsDigit(s[k], radix);
  }

  /** The text of one conversion, in a cleared buffer. */
  method Convert(conv: Char, arg: Arg, tmp: array<Char>)
    requires Takes(conv) && Fits(conv, arg)
    requires tmp.Length == TMP && forall k :: 0 <= k < TMP ==> tmp[k] == NUL
    modifies tmp
    ensures Holds(tmp, FieldText(conv, arg))
  {
    if conv == LOWER_X {
      TextFits(arg.v, 16);
      ItoaBase(arg.v, tmp, 16);
    } else if conv == LOWER_D {
      TextFits(arg.v, 10);
      Itoa(arg.v, tmp);
    } else if conv == LOWER_C {
      tmp[0] := LowChar(arg.v);
      assert tmp[..1] == [LowChar(arg.v)];
    } else {
      var i := 0;
      while i < |arg.s|
        invariant 0 <= i <= |arg.s| && tmp[..i] == arg.s[..i]
        invariant forall k :: i <= k < TMP ==> tmp[k] == NUL
      {
        tmp[i] := arg.s[i];
        i := i + 1;
      }
      assert arg.s[..i] == arg.s;
    }
  }

  /** `strcpy` of the fresh text: from p on, without its zero. */
  method Copy(buf: array<Char>, p: nat, tmp: array<Char>, ghost text: seq<Char>) returns (end: nat)
    requires buf != tmp && Holds(tmp, text) && p + |text| < buf.Length
    modifies buf
    ensures end == p + |text|
    ensures buf[p..end] == text
    ensures forall k :: 0 <= k < p || end <= k < buf.Length ==> buf[k] == old(buf[k])
  {
    var len := Strlen(tmp, text);
    assert forall k :: 0 <= k < len ==> tmp[k] == tmp[..len][k] == text[k];
    end := p;
    var i := 0;
    while i < len
      invariant 0 <= i <= len && end == p + i
      invariant forall k :: p <= k < end ==> buf[k] == text[k - p]
      invariant forall k :: 0 <= k < p || end <= k < buf.Length ==> buf[k] == old(buf[k])
    {
      buf[end] := tmp[i];
      end := end + 1;
      i := i + 1;
    }
  }

  method Pad(buf: array<Char>, p: nat, c: Char, n: int) returns (end: nat)
    requires p < buf.Length && p + n < buf.Length
    modifies buf
    ensures end == if n > 0 then p + n else p
    ensures forall k :: p <= k < end ==> buf[k] == c
    ensures forall k :: 0 <= k < p || end <= k < buf.Length ==> buf[k] == old(buf[k])
  {
    end := p;
    var j := 0;
    while j < n
      invariant 0 <= j && (j <= n || j == 0) && end == p + j
      invariant forall k :: p <= k < end ==> buf[k] == c
      invariant forall k :: 0 <= k < p || end <= k < buf.Length ==> buf[k] == old(buf[k])
    {
      buf[end] := c;
      end := end + 1;
      j := j + 1;
    }
  }

  /** A field, from p on. */
  method Emit(buf: array<Char>, p: nat, zero: bool, width: int, tmp: array<Char>, ghost text: seq<Char>)
      returns (end: nat)
    requires buf != tmp && Holds(tmp, text)
    requires p + |Padded(zero, width, text)| < buf.Length
    modifies buf
    ensures end == p + |Padded(zero, width, text)|
    ensures buf[p..end] == Padded(zero, width, text)
    ensures forall k :: 0 <= k < p || end <= k < buf.Length ==> buf[k] == old(buf[k])
  {
    var len := Strlen(tmp, text);
    var c := if zero then ZERO else SPACE;
    end := Pad(buf, p, c, width - len);
    ghost var start := end;
    end := Copy(buf, end, tmp, text);
    FilledAndText(buf[..], p, start, end, c, text);
    PaddedParts(zero, width, text);
  }

  lemma FilledAndText(s: seq<Char>, p: nat, start: nat, end: nat, c: Char, text: seq<Char>)
    requires p <= start <= end <= |s| && s[start..end] == text
    requires forall k :: p <= k < start ==> s[k] == c
    ensures s[p..end] == Fill(c, start - p) + text
  {
    assert s[p..start] == Fill(c, start - p);
  }

  lemma PaddedParts(zero: bool, width: int, text: seq<Char>)
    ensures Padded(zero, width, text) ==
      Fill(if zero then ZERO else SPACE, if width > |text| then width - |text| else 0) + text
  {
  }

  /** The width in front of s, and what is left of s behind it. */
  method ReadWidth(s: seq<Char>) returns (align: int, rest: seq<Char>)
    ensures rest == s[DigitRun(s)..] && align == Horner(s[..DigitRun(s)])
  {
    align, rest := 0, s;
    ghost var k := 0;
    while rest != [] && ZERO <= rest[0] <= NINE
      invariant k <= |s| && rest == s[k..]
      invariant DigitRun(s) == k + DigitRun(rest)
      invariant align == Horner(s[..k])
      decreases |rest|
    {
      assert rest[1..] == s[k + 1..];
      assert s[..k + 1][..k] == s[..k];
      align := align * 10 + (rest[0] - ZERO);
      rest := rest[1..];
      k := k + 1;
    }
  }

  /** One field, after its percent sign. */
  method PrintField(buf: array<Char>, p: nat, s: seq<Char>, args: seq<Arg>)
      returns (end: nat, rest: seq<Char>, left: seq<Arg>)
    requires HasSpec(s) && Served(SpecOf(s), args)
    requires p + |FieldOutput(SpecOf(s), args)| < buf.Length
    modifies buf
    ensures rest == s[SpecOf(s).used..]
    ensures left == Left(SpecOf(s), args)
    ensures end == p + |FieldOutput(SpecOf(s), args)|
    ensures buf[p..end] == FieldOutput(SpecOf(s), args)
    ensures forall k :: 0 <= k < p || end <= k < buf.Length ==> buf[k] == old(buf[k])
  {
    var tmp := new Char[TMP](_ => NUL);
    var zero := s[0] == ZERO;
    rest := s;
    if zero {
      rest := rest[1..];
    }
    var align;
    align, rest := ReadWidth(rest);
    var conv := rest[0];
    rest := rest[1..];
    left := args;
    ghost var text: seq<Char> := [];
    if Takes(conv) {
      text := FieldText(conv, args[0]);
      Convert(conv, args[0], tmp);
      left := left[1..];
    }
    end := Emit(buf, p, zero, align, tmp, text);
  }

  /** One round of `vsprintf`: a character, a percent sign or a field, from n on. */
  method PrintNext(buf: array<Char>, n: nat, s: seq<Char>, args: seq<Arg>)
      returns (end: nat, rest: seq<Char>, left: seq<Arg>)
    requires s != [] && WellFormed(s, args) && n + |Render(s, args)| < buf.Length
    modifies buf
    ensures |rest| < |s| && WellFormed(rest, left)
    ensures n <= end < buf.Length && Render(s, args) == buf[n..end] + Render(rest, left)
    ensures forall k :: 0 <= k < n || end <= k < buf.Length ==> buf[k] == old(buf[k])
  {
    if s[0] != PERCENT {
      buf[n] := s[0];
      end, rest, left := n + 1, s[1..], args;
      assert buf[n..end] == [s[0]];
    } else if |s| > 1 && s[1] == PERCENT {
      buf[n] := s[1];
      end, rest, left := n + 1, s[2..], args;
      assert buf[n..end] == [s[1]];
    } else {
      end, rest, left := PrintField(buf, n, s[1..], args);
    }
  }

  method PrintOn(buf: array<Char>, n: nat, s: seq<Char>, args: seq<Arg>, ghost out: seq<Char>)
      returns (end: nat, rest: seq<Char>, left: seq<Arg>)
    requires s != [] && WellFormed(s, args)
    requires n <= |out| < buf.Length && out[n..] == Render(s, args) && buf[..n] == out[..n]
    modifies buf
    ensures |rest| < |s| && WellFormed(rest, left)
    ensures n <= end <= |out| && out[end..] == Render(rest, left) && buf[..end] == out[..end]
    ensures buf[end..] == old(buf[end..])
  {
    end, rest, left := PrintNext(buf, n, s, args);
    Continues(out, n, buf[n..end], Render(rest, left));
    Grown(buf[..], out, n, end);
  }

  lemma Grown(s: seq<Char>, out: seq<Char>, n: nat, end: nat)
    requires n <= end <= |s| && end <= |out| && s[..n] == out[..n] && out[..end] == out[..n] + s[n..end]
    ensures s[..end] == out[..end]
  {
    assert s[..end] == s[..n] + s[n..end];
  }

  /** `vsprintf` fills the buffer with the rendering and a zero behind it, leaves the rest alone,
      and returns the length. The format and argument pointers are what they still point at. */
  method Vsprintf(buf: array<Char>, fmt: seq<Char>, args: seq<Arg>) returns (n: nat)
    requires NUL !in fmt && WellFormed(fmt, args) && |Render(fmt, args)| < buf.Length
    modifies buf
    ensures n == |Render(fmt, args)| && buf[..n] == Render(fmt, args) && buf[n] == NUL
    ensures buf[n + 1..] == old(buf[n + 1..])
  {
    n := 0;
    var s, left := fmt, args;
    ghost var out := Render(fmt, args);
    while s != []
      invariant WellFormed(s, left) && n <= |out| && out[n..] == Render(s, left)
      invariant buf[..n] == out[..n] && buf[n..] == old(buf[n..])
      decreases |s|
    {
      n, s, left := PrintOn(buf, n, s, left, out);
    }
    buf[n] := NUL;
  }

  lemma Continues(out: seq<Char>, at: nat, more: seq<Char>, todo: seq<Char>)
    requires at <= |out| && out[at..] == more + todo
    ensures at + |more| <= |out| && out[at + |more|..] == todo && out[..at + |more|] == out[..at] + more
  {
    assert out == out[..at] + more + todo;
  }

}
