/** Numbers to text and back, and formatted printing. */
module Format {
  import opened Numbers

  /** A C `char`: signed. A string is given without its terminating zero. */
  type Char = c: int | -128 <= c < 128

  const NUL: Char := 0
  const ZERO: Char := 48
  const NINE: Char := 57
  const MINUS: Char := 45
  const PLUS: Char := 43
  const PERCENT: Char := 37
  const SPACE: Char := 32
  const LOWER_A: Char := 97
  const LOWER_C: Char := 99
  const LOWER_D: Char := 100
  const LOWER_S: Char := 115
  const LOWER_X: Char := 120

  type Int32 = v: int | -TWO31 <= v < TWO31

  // ---------------------------------------------------------------- numerals

  function Digit(c: nat): Char
    requires c < 36
  {
    if c < 10 then ZERO + c else LOWER_A + c - 10
  }

  /** What a character is worth as a digit. */
  function Worth(d: Char): int {
    if ZERO <= d <= NINE then d - ZERO else if LOWER_A <= d then d - LOWER_A + 10 else -1
  }

  predicate IsDigit(d: Char, radix: nat) {
    0 <= Worth(d) < radix
  }

  /** The number written in a string of digits, most significant first. */
  function Number(s: seq<Char>, radix: nat): int {
    if s == [] then 0 else Number(s[..|s| - 1], radix) * radix + Worth(s[|s| - 1])
  }

  /** The way to write a number: digits, and no zero in front unless it is the only one. */
  predicate Canonical(s: seq<Char>, radix: nat) {
    && s != []
    && (forall k :: 0 <= k < |s| ==> IsDigit(s[k], radix))
    && (s[0] == ZERO ==> |s| == 1)
  }

  function Numeral(n: nat, radix: nat): seq<Char>
    requires 2 <= radix <= 36
  {
    if n < radix then [Digit(n)] else Numeral(n / radix, radix) + [Digit(n % radix)]
  }

  /** There is one canonical numeral for each number, and it is this one. */
  lemma NumeralIsTheOne(n: nat, radix: nat, s: seq<Char>)
    requires 2 <= radix <= 36
    ensures s == Numeral(n, radix) <==> Canonical(s, radix) && Number(s, radix) == n
  {
    NumeralReads(n, radix);
    if Canonical(s, radix) && Number(s, radix) == n {
      OnlyNumeral(n, radix, s);
    }
  }

  lemma {:induction false} NumeralReads(n: nat, radix: nat)
    requires 2 <= radix <= 36
    ensures Canonical(Numeral(n, radix), radix) && Number(Numeral(n, radix), radix) == n
    ensures n > 0 ==> Numeral(n, radix)[0] != ZERO
  {
    if n < radix {
      assert Numeral(n, radix)[..0] == [];
    } else {
      var q, d := n / radix, n % radix;
      Quotient(n, radix);
      NumeralReads(q, radix);
      Appended(Numeral(q, radix), d, radix);
    }
  }

  lemma Quotient(n: nat, radix: nat)
    requires 0 < radix <= n
    ensures 0 < n / radix && (radix >= 2 ==> n / radix <= n / 2 < n)
    ensures n == n / radix * radix + n % radix && 0 <= n % radix < radix
  {
    Division(n, radix);
    QuotientSize(n, n / radix, n % radix, radix);
  }

  lemma QuotientSize(n: nat, q: nat, r: nat, radix: nat)
    requires n == q * radix + r && r < radix <= n
    ensures 0 < q && (radix >= 2 ==> 2 * q <= n)
  {
    if radix >= 2 { assert q * radix >= q * 2; }
  }

  lemma Appended(s: seq<Char>, d: nat, radix: nat)
    requires 2 <= radix <= 36 && d < radix && Canonical(s, radix) && s[0] != ZERO
    ensures var t := s + [Digit(d)];
      Canonical(t, radix) && Number(t, radix) == Number(s, radix) * radix + d && t[0] != ZERO
  {
    assert (s + [Digit(d)])[..|s|] == s;
  }

  lemma {:induction false} NotBelow(radix: nat, s: seq<Char>)
    requires 2 <= radix <= 36 && Canonical(s, radix)
    ensures Number(s, radix) >= 0
    ensures Number(s, radix) == 0 ==> s == [ZERO]
    ensures |s| > 1 ==> Number(s, radix) >= radix
  {
    var rest, d := s[..|s| - 1], s[|s| - 1];
    assert IsDigit(d, radix);
    if |s| > 1 {
      assert Canonical(rest, radix);
      NotBelow(radix, rest);
      AtLeast(Number(rest, radix), radix);
    } else {
      assert rest == [];
      assert Number(rest, radix) == 0;
    }
  }

  lemma {:induction false} OnlyNumeral(n: nat, radix: nat, s: seq<Char>)
    requires 2 <= radix <= 36 && Canonical(s, radix) && Number(s, radix) == n
    ensures s == Numeral(n, radix)
    decreases |s|
  {
    NotBelow(radix, s);
    var rest, d := s[..|s| - 1], s[|s| - 1];
    assert Digit(Worth(d)) == d;
    if |s| == 1 {
      assert rest == [];
      assert Number(rest, radix) == 0;
    } else {
      assert Canonical(rest, radix);
      NotBelow(radix, rest);
      DivMod(Number(rest, radix), Worth(d), radix);
      OnlyNumeral(n / radix, radix, rest);
    }
  }

  /** A 31-bit number has at most 31 digits. */
  lemma {:induction false} NumeralFits(n: nat, radix: nat, k: nat)
    requires 2 <= radix <= 36 && n < Pow2(k + 1)
    ensures |Numeral(n, radix)| <= k + 1
    decreases k
  {
    if n >= radix {
      assert k > 0;
      Quotient(n, radix);
      NumeralFits(n / radix, radix, k - 1);
    }
  }

  function Pow2(k: nat): nat {
    if k == 0 then 1 else 2 * Pow2(k - 1)
  }

  /** What `itoa_base` writes. The lowest value is its own negation in 32 bits, so its remainders
      are negative and its digits come out below '0'. */
  function Text(v: int, radix: nat): seq<Char>
    requires 2 <= radix <= 36
  {
    if v == -TWO31 then [MINUS] + Mirrored(Numeral(TWO31, radix))
    else if v < 0 then [MINUS] + Numeral(-v, radix)
    else Numeral(v, radix)
  }

  /** The digits are these characters, in this order. */
  lemma DigitCharacters(c: nat)
    requires c < 36
    ensures Digit(c) == "0123456789abcdefghijklmnopqrstuvwxyz"[c] as int && Worth(Digit(c)) == c
  {
  }

  /** The text of a number is its numeral in the radix, with a minus in front of a negative one. */
  lemma TextSays(v: Int32, radix: nat)
    requires 2 <= radix <= 36 && v != -TWO31
    ensures var t := Text(v, radix);
      if v >= 0 then Canonical(t, radix) && Number(t, radix) == v
      else t != [] && t[0] == '-' as int && Canonical(t[1..], radix) && Number(t[1..], radix) == -v
  {
    NumeralReads(Abs(v), radix);
    assert v < 0 ==> Text(v, radix)[1..] == Numeral(-v, radix);
  }

  /** The lowest value: behind the minus, each character is as far below '0' as the digit of its
      magnitude is above. */
  lemma LowestText(radix: nat, s: seq<Char>)
    requires 2 <= radix <= 36 && Canonical(s, radix) && Number(s, radix) == TWO31
    ensures var t := Text(-TWO31, radix);
      |t| == |s| + 1 && t[0] == '-' as int && forall k :: 0 <= k < |s| ==> t[k + 1] == '0' as int - Worth(s[k])
  {
    NumeralIsTheOne(TWO31, radix, s);
    forall k | 0 <= k < |s| ensures Mirrored(s)[k] == '0' as int - Worth(s[k]) {
      assert IsDigit(s[k], radix);
    }
  }

  /** The character as far below '0' as this digit is above it. */
  function Below(d: Char): Char {
    if 0 <= Worth(d) < 36 then ZERO - Worth(d) else ZERO
  }

  function Mirrored(s: seq<Char>): (r: seq<Char>)
    ensures |r| == |s| && forall k :: 0 <= k < |s| ==> r[k] == Below(s[k])
  {
    seq(|s|, k requires 0 <= k < |s| => Below(s[k]))
  }

  function Signed(s: seq<Char>, negative: bool): seq<Char> {
    if negative then Mirrored(s) else s
  }

  function Abs(v: int): nat { if v < 0 then -v else v }

  // ---------------------------------------------------------------- strings in buffers

  /** The buffer starts with this string and its terminating zero. */
  predicate Holds(a: array<Char>, s: seq<Char>)
    reads a
  {
    |s| < a.Length && a[..|s|] == s && a[|s|] == NUL && NUL !in s
  }

  method Strlen(a: array<Char>, ghost s: seq<Char>) returns (n: nat)
    requires Holds(a, s)
    ensures n == |s|
  {
    n := 0;
    while a[n] != NUL
      invariant n <= |s| && forall k :: 0 <= k < n ==> a[k] != NUL
      decreases |s| - n
    {
      assert n < |s|;
      n := n + 1;
    }
  }

  function Reversed(s: seq<Char>): (r: seq<Char>)
    ensures |r| == |s| && forall k :: 0 <= k < |s| ==> r[k] == s[|s| - 1 - k]
  {
    seq(|s|, k requires 0 <= k < |s| => s[|s| - 1 - k])
  }

  /** `reverse`: the string is turned round where it stands. */
  method Reverse(a: array<Char>, ghost s: seq<Char>)
    requires Holds(a, s)
    modifies a
    ensures Holds(a, Reversed(s))
    ensures forall k :: |s| <= k < a.Length ==> a[k] == old(a[k])
  {
    var len := Strlen(a, s);
    var i, j := 0, len - 1;
    while i < j
      invariant 0 <= i && i + j == len - 1 && i <= j + 1
      invariant forall k :: 0 <= k < i || j < k < len ==> a[k] == old(a[len - 1 - k])
      invariant forall k :: i <= k <= j || len <= k < a.Length ==> a[k] == old(a[k])
    {
      a[i], a[j] := a[j], a[i];
      i, j := i + 1, j - 1;
    }
    forall k | 0 <= k < len ensures a[k] == Reversed(s)[k] {
      assert s[len - 1 - k] == old(a[..|s|])[len - 1 - k];
    }
    assert a[..len] == Reversed(s);
  }

  /** The digits of a number, least significant first; none for zero. */
  function Low(n: nat, radix: nat): seq<Char>
    requires 2 <= radix <= 36
  {
    if n == 0 then [] else [Digit(n % radix)] + Low(n / radix, radix)
  }

  lemma {:induction false} LowReversed(n: nat, radix: nat)
    requires 2 <= radix <= 36
    ensures n > 0 ==> Reversed(Low(n, radix)) == Numeral(n, radix)
    ensures NUL !in Low(n, radix)
  {
    if n >= radix {
      Quotient(n, radix);
      LowReversed(n / radix, radix);
      ReversedCons(Digit(n % radix), Low(n / radix, radix));
    } else if n > 0 {
      SmallLow(n, radix);
      assert Reversed([Digit(n)]) == [Digit(n)];
    }
  }

  lemma SmallLow(n: nat, radix: nat)
    requires 2 <= radix <= 36 && 0 < n < radix
    ensures Low(n, radix) == [Digit(n)]
  {
    DivMod(0, n, radix);
  }

  lemma ReversedCons(c: Char, s: seq<Char>)
    ensures Reversed([c] + s) == Reversed(s) + [c]
  {
  }

  lemma ReversedSnoc(s: seq<Char>, c: Char)
    ensures Reversed(s + [c]) == [c] + Reversed(s)
  {
  }

  /** What is in the buffer before it is turned round. */
  function Backwards(v: int, radix: nat): seq<Char>
    requires 2 <= radix <= 36
  {
    if v == -TWO31 then Mirrored(Low(TWO31, radix)) + [MINUS]
    else if v < 0 then Low(-v, radix) + [MINUS] else if v == 0 then [ZERO] else Low(v, radix)
  }

  lemma BackwardsIsText(v: int, radix: nat)
    requires 2 <= radix <= 36
    ensures Reversed(Backwards(v, radix)) == Text(v, radix) && NUL !in Backwards(v, radix)
    ensures |Backwards(v, radix)| == |Text(v, radix)|
  {
    LowReversed(Abs(v), radix);
    if v == -TWO31 {
      ReversedSnoc(Mirrored(Low(TWO31, radix)), MINUS);
      assert Reversed(Mirrored(Low(TWO31, radix))) == Mirrored(Reversed(Low(TWO31, radix)));
    } else if v < 0 {
      ReversedSnoc(Low(-v, radix), MINUS);
    } else if v == 0 {
      assert Reversed([ZERO]) == [ZERO];
    }
  }

  method LowestDigit(v: int, radix: nat) returns (c: int, q: int)
    requires 2 <= radix <= 36 && v != 0
    ensures Abs(c) < radix && Abs(q) < Abs(v)
    ensures if v < 0 then c <= 0 && q <= 0 else c >= 0 && q >= 0
    ensures Low(Abs(v), radix) == [Digit(Abs(c))] + Low(Abs(q), radix)
  {
    c := CRem(v, radix);
    q := CDiv(v, radix);
    var n := Abs(v);
    if n >= radix { Quotient(n, radix); } else { DivMod(0, n, radix); }
    assert Abs(q) == n / radix && Abs(c) == n % radix;
  }

  /** The digits are written from the lowest up; of a negative number, below '0'. */
  method WriteLow(value: int, dest: array<Char>, radix: nat) returns (i: nat)
    requires 2 <= radix <= 36 && |Low(Abs(value), radix)| < dest.Length
    modifies dest
    ensures i == |Low(Abs(value), radix)| && dest[..i] == Signed(Low(Abs(value), radix), value < 0)
    ensures forall k :: i <= k < dest.Length ==> dest[k] == old(dest[k])
  {
    var v := value;
    i := 0;
    ghost var low := Low(Abs(v), radix);
    ghost var rest := low;
    while v != 0
      invariant if value < 0 then v <= 0 else v >= 0
      invariant i <= |low| && rest == Low(Abs(v), radix) && rest == low[i..]
      invariant forall k :: 0 <= k < i ==> dest[k] == if value < 0 then Below(low[k]) else low[k]
      invariant forall k :: i <= k < dest.Length ==> dest[k] == old(dest[k])
      decreases Abs(v)
    {
      var c, q := LowestDigit(v, radix);
      rest, v := rest[1..], q;
      dest[i] := if c < 10 then ZERO + c else LOWER_A + c - 10;
      assert low[i] == low[i..][0] == Digit(Abs(c));
      i := i + 1;
    }
  }

  /** `itoa_base`. */
  method ItoaBase(value: Int32, dest: array<Char>, radix: nat)
    requires 2 <= radix <= 36 && |Text(value, radix)| < dest.Length
    modifies dest
    ensures Holds(dest, Text(value, radix))
    ensures forall k :: |Text(value, radix)| < k < dest.Length ==> dest[k] == old(dest[k])
  {
    BackwardsIsText(value, radix);
    ghost var text := Backwards(value, radix);
    var positive := value >= 0;
    var v: int := value;
    if !positive {
      v := Wrap(-v);
    }
    var i := WriteLow(v, dest, radix);
    if !positive {
      dest[i] := MINUS;
      i := i + 1;
    }
    if i == 0 {
      dest[i] := ZERO;
      i := i + 1;
    }
    dest[i] := NUL;
    assert dest[..i] == text;
    Reverse(dest, text);
  }

  method Itoa(value: Int32, dest: array<Char>)
    requires |Text(value, 10)| < dest.Length
    modifies dest
    ensures Holds(dest, Text(value, 10))
    ensures forall k :: |Text(value, 10)| < k < dest.Length ==> dest[k] == old(dest[k])
  {
    ItoaBase(value, dest, 10);
  }

  // ---------------------------------------------------------------- back to a number

  /** The 32-bit signed value with the same low 32 bits. */
  function Wrap(x: int): (v: Int32)
    ensures x == v <==> -TWO31 <= x < TWO31
  {
    (x + TWO31) % TWO32 - TWO31
  }

  /** Any characters read as decimal digits, whatever they are. */
  function Horner(s: seq<Char>): int {
    if s == [] then 0 else Horner(s[..|s| - 1]) * 10 + (s[|s| - 1] - ZERO)
  }

  /** What `atoi` makes of a string: after a minus, the sign bit is set, not the value negated. */
  function Parsed(s: seq<Char>): Int32 {
    if s != [] && s[0] == MINUS then Horner(s[1..]) % TWO31 - TWO31
    else Wrap(Horner(if s != [] && s[0] == PLUS then s[1..] else s))
  }

  /** A plus in front of a string without a sign does not matter. */
  lemma PlusSign(s: seq<Char>)
    requires s != [] ==> s[0] != '-' as int && s[0] != '+' as int
    ensures Parsed(['+' as int] + s) == Parsed(s)
  {
    assert ([PLUS] + s)[1..] == s;
  }

  /** Two numbers a multiple of 2^32 apart wrap to the same. */
  lemma SameWrap(x: int, q: int)
    ensures Wrap(x + q * TWO32) == Wrap(x)
  {
    var y := x + TWO31;
    Division(y, TWO32);
    DivMod(y / TWO32 + q, y % TWO32, TWO32);
    assert y + q * TWO32 == (y / TWO32 + q) * TWO32 + y % TWO32;
  }

  /** The multiple of 2^32 that wrapping takes away. */
  lemma Unwrapped(x: int) returns (q: int)
    ensures x == Wrap(x) + q * TWO32
  {
    q := (x + TWO31) / TWO32;
    Division(x + TWO31, TWO32);
  }

  lemma WrapStep(a: int, d: int)
    ensures Wrap(Wrap(a) * 10 + d) == Wrap(a * 10 + d)
  {
    var q := Unwrapped(a);
    SameWrap(Wrap(a) * 10 + d, 10 * q);
    assert Wrap(a) * 10 + d + 10 * q * TWO32 == a * 10 + d;
  }

  /** Setting bit 31 of a 32-bit value. */
  function WithSignBit(v: Int32): Int32 {
    if v >= 0 then v - TWO31 else v
  }

  lemma SignBit(x: int)
    ensures WithSignBit(Wrap(x)) == x % TWO31 - TWO31
  {
    var q := Unwrapped(x);
    var low := WithSignBit(Wrap(x)) + TWO31;
    assert x == (if Wrap(x) >= 0 then 2 * q else 2 * q - 1) * TWO31 + low;
    DivMod(if Wrap(x) >= 0 then 2 * q else 2 * q - 1, low, TWO31);
  }

  method Atoi(s: seq<Char>) returns (r: Int32)
    requires NUL !in s
    ensures r == Parsed(s)
  {
    var positive, i := true, 0;
    if i < |s| && s[i] == MINUS {
      positive := false;
      i := i + 1;
    } else if i < |s| && s[i] == PLUS {
      i := i + 1;
    }
    ghost var digits := s[i..];
    ghost var from := i;
    var num: Int32 := 0;
    while i < |s|
      invariant from <= i <= |s|
      invariant num == Wrap(Horner(digits[..i - from]))
    {
      assert digits[..i + 1 - from][..i - from] == digits[..i - from];
      WrapStep(Horner(digits[..i - from]), s[i] - ZERO);
      num := Wrap(num * 10 + (s[i] - ZERO));
      i := i + 1;
    }
    assert digits[..i - from] == digits;
    SignBit(Horner(digits));
    r := if positive then num else WithSignBit(num);
  }

  lemma {:induction false} HornerIsNumber(s: seq<Char>)
    requires forall k :: 0 <= k < |s| ==> IsDigit(s[k], 10)
    ensures Horner(s) == Number(s, 10)
  {
    if s != [] {
      HornerIsNumber(s[..|s| - 1]);
      assert IsDigit(s[|s| - 1], 10);
    }
  }

  lemma {:induction false} HornerMirrored(s: seq<Char>)
    requires forall k :: 0 <= k < |s| ==> IsDigit(s[k], 10)
    ensures Horner(Mirrored(s)) == -Number(s, 10)
  {
    if s != [] {
      HornerMirrored(s[..|s| - 1]);
      assert Mirrored(s)[..|s| - 1] == Mirrored(s[..|s| - 1]);
      assert IsDigit(s[|s| - 1], 10);
    }
  }

  lemma ReadsBack(n: nat)
    requires n < TWO31
    ensures Parsed(Numeral(n, 10)) == n && Parsed([MINUS] + Numeral(n, 10)) == n - TWO31
  {
    var s := Numeral(n, 10);
    NumeralReads(n, 10);
    assert IsDigit(s[0], 10);
    HornerIsNumber(s);
    assert ([MINUS] + s)[1..] == s;
  }

  lemma LowestReadsBack()
    ensures Parsed([MINUS] + Mirrored(Numeral(TWO31, 10))) == -TWO31
  {
    var s := Numeral(TWO31, 10);
    NumeralReads(TWO31, 10);
    HornerMirrored(s);
    assert ([MINUS] + Mirrored(s))[1..] == Mirrored(s);
  }

  /** Reading back what was written gives the value exactly when it was not negative, for the one
      negative value whose magnitude is half the range, and for the lowest. */
  lemma RoundTrip(v: Int32)
    ensures v >= 0 ==> Parsed(Text(v, 10)) == v
    ensures -TWO31 < v < 0 ==> Parsed(Text(v, 10)) == -v - TWO31
    ensures Parsed(Text(v, 10)) == v <==> v >= 0 || v == -0x4000_0000 || v == -TWO31
  {
    LowestReadsBack();
    if v != -TWO31 { ReadsBack(Abs(v)); }
  }
}
