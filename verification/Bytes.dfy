/** Byte strings, newline framing and decimal numerals. */
module Bytes {
  type byte = b: int | 0 <= b < 0x100
  type bytes = seq<byte>

  const NEWLINE: byte := 0x0A
  const DIGIT_ZERO: byte := 0x30

  /** Text that fits on one line of a `JSONEachRow` body. */
  type Line = s: bytes | NEWLINE !in s

  predicate IsDigit(b: byte) {
    0x30 <= b <= 0x39
  }

  predicate IsUpper(b: byte) {
    0x41 <= b <= 0x5A
  }

  predicate IsLetter(b: byte) {
    IsUpper(b) || 0x61 <= b <= 0x7A
  }

  predicate AllDigits(s: bytes) {
    forall i :: 0 <= i < |s| ==> IsDigit(s[i])
  }

  predicate IsPrintable(s: string) {
    forall i :: 0 <= i < |s| ==> ' ' <= s[i] <= '~'
  }

  /** The bytes of a literal. */
  function Ascii(s: string): (line: Line)
    requires IsPrintable(s)
    ensures |line| == |s| && forall i :: 0 <= i < |s| ==> line[i] == s[i] as int
  {
    var text: bytes := seq(|s|, i requires 0 <= i < |s| => s[i] as int);
    assert forall i :: 0 <= i < |s| ==> text[i] >= 0x20;
    text
  }

  lemma Associative(a: bytes, b: bytes, c: bytes)
    ensures a + b + c == a + (b + c)
  {
  }

  // ---------------------------------------------------------------------------
  // Newline framing
  // ---------------------------------------------------------------------------

  /** Every row followed by a newline: the body a queue batch is sent as. */
  function Unlines(rows: seq<Line>): bytes {
    if rows == [] then [] else rows[0] + [NEWLINE] + Unlines(rows[1..])
  }

  /** Position of the first newline, or the length when there is none. */
  function NewlineIndex(s: bytes): (i: nat)
    ensures i <= |s|
    ensures NEWLINE !in s[..i]
    ensures i < |s| ==> s[i] == NEWLINE
  {
    if s == [] || s[0] == NEWLINE then 0
    else
      var i := 1 + NewlineIndex(s[1..]);
      assert s[..i] == [s[0]] + s[1..][..i - 1];
      i
  }

  /** The rows the archive reads out of a body, one per newline. */
  function Lines(body: bytes): seq<Line>
    decreases |body|
  {
    if body == [] then []
    else
      var i := NewlineIndex(body);
      if i == |body| then
        assert body[..i] == body;
        [body]
      else [body[..i]] + Lines(body[i + 1..])
  }

  lemma {:induction false} NewlineIndexIsUnique(s: bytes, i: nat)
    requires i < |s| && s[i] == NEWLINE && NEWLINE !in s[..i]
    ensures NewlineIndex(s) == i
    decreases i
  {
    if i > 0 {
      assert s[..i][0] == s[0];
      assert s[..i][1..] == s[1..][..i - 1];
      NewlineIndexIsUnique(s[1..], i - 1);
    }
  }

  /** Reading a body back gives exactly the rows it was made of. */
  lemma {:induction false} LinesOfUnlines(rows: seq<Line>)
    ensures Lines(Unlines(rows)) == rows
  {
    if rows != [] {
      var body := Unlines(rows);
      var rest := Unlines(rows[1..]);
      assert body == rows[0] + ([NEWLINE] + rest);
      assert body[..|rows[0]|] == rows[0];
      NewlineIndexIsUnique(body, |rows[0]|);
      assert body[|rows[0]| + 1..] == rest;
      LinesOfUnlines(rows[1..]);
    }
  }

  lemma {:induction false} UnlinesConcat(a: seq<Line>, b: seq<Line>)
    ensures Unlines(a + b) == Unlines(a) + Unlines(b)
  {
    if a == [] {
      assert a + b == b;
    } else {
      assert (a + b)[1..] == a[1..] + b;
      UnlinesConcat(a[1..], b);
    }
  }

  // ---------------------------------------------------------------------------
  // Decimal numerals
  // ---------------------------------------------------------------------------

  /** Shortest decimal numeral of a natural number. */
  function Decimal(v: nat): (s: bytes)
    ensures s != [] && AllDigits(s)
    ensures NumberOf(s) == v
    decreases v
  {
    if v < 10 then
      assert NumberOf([DIGIT_ZERO + v]) == v by { assert [DIGIT_ZERO + v][..0] == []; }
      [DIGIT_ZERO + v]
    else
      var s := Decimal(v / 10) + [DIGIT_ZERO + v % 10];
      assert s[..|s| - 1] == Decimal(v / 10);
      s
  }

  /** The number a string of decimal digits stands for, leading zeros allowed. */
  function NumberOf(s: bytes): nat
    requires AllDigits(s)
  {
    if s == [] then 0 else 10 * NumberOf(s[..|s| - 1]) + (s[|s| - 1] - DIGIT_ZERO)
  }

  /** A numeral of a number. */
  predicate IsNumeral(s: bytes, n: nat) {
    s != [] && AllDigits(s) && NumberOf(s) == n
  }

  function Zeros(n: nat): (s: bytes)
    ensures |s| == n && AllDigits(s)
  {
    seq(n, _ => DIGIT_ZERO)
  }

  /** Rust's `{:0>width}`: zeros on the left up to the width, never truncating. */
  function PadLeft(s: bytes, width: nat): bytes {
    if |s| >= width then s else Zeros(width - |s|) + s
  }

  lemma {:induction false} NumberOfZeros(n: nat, s: bytes)
    requires AllDigits(s)
    ensures AllDigits(Zeros(n) + s) && NumberOf(Zeros(n) + s) == NumberOf(s)
    decreases |s| + n
  {
    var p := Zeros(n) + s;
    if s == [] {
      if n > 0 {
        assert p[..n - 1] == Zeros(n - 1) + [];
        NumberOfZeros(n - 1, []);
      }
    } else {
      assert p[..|p| - 1] == Zeros(n) + s[..|s| - 1];
      NumberOfZeros(n, s[..|s| - 1]);
    }
  }

  lemma PadLeftFacts(s: bytes, width: nat)
    requires AllDigits(s)
    ensures AllDigits(PadLeft(s, width))
    ensures NumberOf(PadLeft(s, width)) == NumberOf(s)
    ensures |PadLeft(s, width)| == if |s| >= width then |s| else width
  {
    if |s| < width {
      NumberOfZeros(width - |s|, s);
    }
  }

  /** Two numerals of the same width stand for the same number only when they are the same. */
  lemma {:induction false} SameWidthSameNumber(a: bytes, b: bytes)
    requires AllDigits(a) && AllDigits(b) && |a| == |b|
    ensures a == b <==> NumberOf(a) == NumberOf(b)
  {
    if a != [] {
      var n := |a| - 1;
      SameWidthSameNumber(a[..n], b[..n]);
      assert a == a[..n] + [a[n]];
      assert b == b[..n] + [b[n]];
    }
  }

  /** Below a power of ten, a numeral fits in as many digits as its exponent. */
  lemma {:induction false} DecimalWidth(v: nat, width: nat)
    requires 1 <= width
    requires v < Power10(width)
    ensures |Decimal(v)| <= width
  {
    if v >= 10 {
      DecimalWidth(v / 10, width - 1);
    }
  }

  function Power10(n: nat): nat {
    if n == 0 then 1 else 10 * Power10(n - 1)
  }

  /** A number below 10^width, written with exactly that many digits. */
  function Padded(v: nat, width: nat): (s: bytes)
    requires 1 <= width && v < Power10(width)
    ensures |s| == width && AllDigits(s) && NumberOf(s) == v
  {
    DecimalWidth(v, width);
    PadLeftFacts(Decimal(v), width);
    PadLeft(Decimal(v), width)
  }
}
