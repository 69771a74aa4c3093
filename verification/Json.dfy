/** JSON text, as written for the archive on one line per part sheet (RFC 8259). */
module Json {
  import opened Wrappers
  import opened Bytes
  import opened Variants

  datatype JsonError = MultidimensionalArray | UnsupportedVariant(typeId: u8)

  const QUOTE: byte := '\"' as int
  const BACKSLASH: byte := '\\' as int

  predicate IsTokenByte(b: byte) {
    IsDigit(b) || IsLetter(b) || b in {0x2B, 0x2D, 0x2E}
  }

  /** The text of a number, of a truth value or of nothing. */
  type Token = s: Line | s != [] && forall i :: 0 <= i < |s| ==> IsTokenByte(s[i]) witness [0x30]

  /** How floating-point numbers are written: as any token. */
  datatype FloatFormat = FloatFormat(single: u32 -> Token, double: u64 -> Token)

  // ---------------------------------------------------------------------------
  // Strings (section 7)
  // ---------------------------------------------------------------------------

  function HexDigit(n: nat): byte
    requires n < 0x10
  {
    if n < 10 then 0x30 + n else 0x57 + n
  }

  /** The escape of a byte: only quotes, backslashes and control characters have one. */
  function EscapeByte(b: byte): bytes {
    if b == QUOTE then [BACKSLASH, QUOTE]
    else if b == BACKSLASH then [BACKSLASH, BACKSLASH]
    else if b == 0x08 then [BACKSLASH, 0x62]
    else if b == 0x09 then [BACKSLASH, 0x74]
    else if b == NEWLINE then [BACKSLASH, 0x6E]
    else if b == 0x0C then [BACKSLASH, 0x66]
    else if b == 0x0D then [BACKSLASH, 0x72]
    else if b < 0x20 then [BACKSLASH, 0x75, 0x30, 0x30, HexDigit(b / 0x10), HexDigit(b % 0x10)]
    else [b]
  }

  function Escape(s: bytes): bytes {
    if s == [] then [] else EscapeByte(s[0]) + Escape(s[1..])
  }

  lemma {:induction false} EscapeFitsOnALine(s: bytes)
    ensures NEWLINE !in Escape(s)
  {
    if s != [] {
      EscapeFitsOnALine(s[1..]);
    }
  }

  function JsonString(s: bytes): Line {
    EscapeFitsOnALine(s);
    [QUOTE] + Escape(s) + [QUOTE]
  }

  function HexValue(b: byte): Option<nat> {
    if IsDigit(b) then Some(b - 0x30)
    else if 0x61 <= b <= 0x66 then Some(b - 0x57)
    else if 0x41 <= b <= 0x46 then Some(b - 0x37)
    else None
  }

  /** A reader's view of one escape sequence, or of one plain byte: the byte it stands for and
      how many bytes it takes. `\u` escapes are read for the ASCII characters only. */
  function ReadByte(t: bytes): Option<(byte, nat)> {
    if t == [] || t[0] < 0x20 || t[0] == '\"' as int then None
    else if t[0] != '\\' as int then Some((t[0], 1))
    else if |t| < 2 then None
    else if t[1] in {'\"' as int, '\\' as int, '/' as int} then Some((t[1], 2))
    else if t[1] == 'b' as int then Some((0x08, 2))
    else if t[1] == 'f' as int then Some((0x0C, 2))
    else if t[1] == 'n' as int then Some((0x0A, 2))
    else if t[1] == 'r' as int then Some((0x0D, 2))
    else if t[1] == 't' as int then Some((0x09, 2))
    else if t[1] == 'u' as int && |t| >= 6 && t[2] == t[3] == '0' as int then
      match (HexValue(t[4]), HexValue(t[5]))
      case (Some(h), Some(l)) => if h < 8 then Some((0x10 * h + l, 6)) else None
      case _ => None
    else None
  }

  /** Reads the content of a string up to its closing quote, and returns what follows. */
  function ReadString(t: bytes): (r: Option<(bytes, bytes)>)
    ensures r.Some? ==> |r.value.1| < |t|
    decreases |t|
  {
    if t == [] then None
    else if t[0] == '\"' as int then Some(([], t[1..]))
    else
      match ReadByte(t)
      case None => None
      case Some((b, n)) =>
        match ReadString(t[n..])
        case None => None
        case Some((s, rest)) => Some(([b] + s, rest))
  }

  lemma ReadEscapedByte(b: byte, t: bytes)
    ensures EscapeByte(b) != [] && (EscapeByte(b) + t)[0] != QUOTE
    ensures ReadByte(EscapeByte(b) + t) == Some((b, |EscapeByte(b)|))
    ensures (EscapeByte(b) + t)[|EscapeByte(b)|..] == t
  {
  }

  /** A reader gets any string back from its escaped form. */
  lemma {:induction false} StringRoundTrip(s: bytes, rest: bytes)
    ensures ReadString(Escape(s) + [QUOTE] + rest) == Some((s, rest))
  {
    var t := Escape(s) + [QUOTE] + rest;
    if s == [] {
      assert t[1..] == rest;
    } else {
      var tail := Escape(s[1..]) + [QUOTE] + rest;
      assert t == EscapeByte(s[0]) + tail;
      ReadEscapedByte(s[0], tail);
      StringRoundTrip(s[1..], rest);
      assert [s[0]] + s[1..] == s;
    }
  }

  // ---------------------------------------------------------------------------
  // Values
  // ---------------------------------------------------------------------------

  const COMMA: byte := ',' as int
  const OPEN_BRACKET: byte := '[' as int
  const CLOSE_BRACKET: byte := ']' as int

  const NULL: Token := [0x6E, 0x75, 0x6C, 0x6C]
  const TRUE: Token := [0x74, 0x72, 0x75, 0x65]
  const FALSE: Token := [0x66, 0x61, 0x6C, 0x73, 0x65]

  const MINUS: byte := '-' as int

  function Integer(n: int): Token {
    if n < 0 then [MINUS] + Decimal(-n) else Decimal(n)
  }

  /** A value as JSON text, or the reason why it cannot be archived. */
  function SerializeVariant(fmt: FloatFormat, v: Variant): Result<Line, JsonError>
    decreases v
  {
    match v
    case Empty => Ok(NULL)
    case Boolean(b) => Ok(if b then TRUE else FALSE)
    case SByte(n) => Ok(Integer(n))
    case Byte(n) => Ok(Integer(n))
    case Int16(n) => Ok(Integer(n))
    case UInt16(n) => Ok(Integer(n))
    case Int32(n) => Ok(Integer(n))
    case UInt32(n) => Ok(Integer(n))
    case Int64(n) => Ok(Integer(n))
    case UInt64(n) => Ok(Integer(n))
    case Float(bits) => Ok(fmt.single(bits))
    case Double(bits) => Ok(fmt.double(bits))
    case UaString(None) => Ok(NULL)
    case UaString(Some(s)) => Ok(JsonString(s))
    case Array(_, values, dimensions) =>
      if dimensions.Some? then Err(MultidimensionalArray)
      else
        var items :- SerializeItems(fmt, values);
        Ok([OPEN_BRACKET] + items + [CLOSE_BRACKET])
    case Other(t, _) => Err(UnsupportedVariant(t))
  }

  /** Values separated by commas; the first one that cannot be archived decides the error. */
  function SerializeItems(fmt: FloatFormat, values: seq<Variant>): Result<Line, JsonError>
    decreases values
  {
    if values == [] then Ok([])
    else
      var head :- SerializeVariant(fmt, values[0]);
      var tail :- SerializeItems(fmt, values[1..]);
      Ok(if |values| == 1 then head else head + [COMMA] + tail)
  }

  /** A value can be written exactly when it is supported. */
  lemma {:induction false} SerializesIffSupported(fmt: FloatFormat, v: Variant)
    ensures SerializeVariant(fmt, v).Ok? <==> Supported(v)
    decreases v, 1
  {
    if v.Array? {
      ItemsSerializeIffSupported(fmt, v.values);
    }
  }

  lemma {:induction false} ItemsSerializeIffSupported(fmt: FloatFormat, values: seq<Variant>)
    ensures SerializeItems(fmt, values).Ok? <==> forall i :: 0 <= i < |values| ==> Supported(values[i])
    decreases values, 0
  {
    if values != [] {
      SerializesIffSupported(fmt, values[0]);
      ItemsSerializeIffSupported(fmt, values[1..]);
      assert forall i :: 1 <= i < |values| ==> values[i] == values[1..][i - 1];
    }
  }

  /** Items written in two goes, joined by a comma unless one of the goes is empty. */
  lemma {:induction false} ItemsConcat(fmt: FloatFormat, a: seq<Variant>, b: seq<Variant>)
    requires SerializeItems(fmt, a).Ok?
    ensures SerializeItems(fmt, a + b) ==
            match SerializeItems(fmt, b)
            case Err(e) => Err(e)
            case Ok(tail) =>
              var head := SerializeItems(fmt, a).value;
              Ok(if a == [] then tail else if b == [] then head else head + [COMMA] + tail)
  {
    if a == [] {
      assert a + b == b;
    } else {
      assert (a + b)[1..] == a[1..] + b;
      ItemsConcat(fmt, a[1..], b);
      assert |a| == 1 ==> a[1..] == [];
      assert b == [] ==> a + b == a;
      if SerializeItems(fmt, b).Ok? {
        var head, rest := SerializeVariant(fmt, a[0]).value, SerializeItems(fmt, a[1..]).value;
        var tail := SerializeItems(fmt, b).value;
        assert head + [COMMA] + (rest + [COMMA] + tail) == head + [COMMA] + rest + [COMMA] + tail;
      }
    }
  }

  /** The array branch as the serializer runs it, one item after the other. */
  method WriteItems(fmt: FloatFormat, values: seq<Variant>) returns (r: Result<Line, JsonError>)
    ensures r == SerializeItems(fmt, values)
  {
    var out: Line := [];
    for i := 0 to |values|
      invariant SerializeItems(fmt, values[..i]) == Ok(out)
    {
      var item := SerializeVariant(fmt, values[i]);
      ItemsConcat(fmt, values[..i], [values[i]]);
      assert values[..i] + [values[i]] == values[..i + 1];
      assert SerializeItems(fmt, []) == Ok([]);
      if item.Err? {
        ItemsConcat(fmt, values[..i], values[i..]);
        assert values[..i] + values[i..] == values;
        return Err(item.error);
      }
      out := if i > 0 then out + [COMMA] + item.value else item.value;
    }
    assert values[..|values|] == values;
    return Ok(out);
  }

  // ---------------------------------------------------------------------------
  // Reading values back
  // ---------------------------------------------------------------------------

  /** A value as a JSON reader sees it; numbers that are not integers are left as text. */
  datatype JsonValue =
    | Nothing
    | Truth(truth: bool)
    | Whole(number: int)
    | Real(numeral: bytes)
    | Text(text: bytes)
    | List(items: seq<JsonValue>)

  /** What a token stands for. */
  function Interpret(token: bytes): JsonValue {
    if token == Ascii("null") then Nothing
    else if token == Ascii("true") then Truth(true)
    else if token == Ascii("false") then Truth(false)
    else if token != [] && AllDigits(token) then Whole(NumberOf(token))
    else if |token| > 1 && token[0] == '-' as int && AllDigits(token[1..]) then Whole(0 - NumberOf(token[1..]))
    else Real(token)
  }

  /** What a value means to a reader. */
  function Meaning(fmt: FloatFormat, v: Variant): JsonValue
    decreases v
  {
    match v
    case Empty => Nothing
    case Boolean(b) => Truth(b)
    case SByte(n) => Whole(n)
    case Byte(n) => Whole(n)
    case Int16(n) => Whole(n)
    case UInt16(n) => Whole(n)
    case Int32(n) => Whole(n)
    case UInt32(n) => Whole(n)
    case Int64(n) => Whole(n)
    case UInt64(n) => Whole(n)
    case Float(bits) => Interpret(fmt.single(bits))
    case Double(bits) => Interpret(fmt.double(bits))
    case UaString(None) => Nothing
    case UaString(Some(s)) => Text(s)
    case Array(_, values, _) => List(Meanings(fmt, values))
    case Other(_, _) => Nothing
  }

  function Meanings(fmt: FloatFormat, values: seq<Variant>): seq<JsonValue>
    decreases values
  {
    if values == [] then [] else [Meaning(fmt, values[0])] + Meanings(fmt, values[1..])
  }

  /** Number of token bytes a text starts with. */
  function TokenRun(t: bytes): (n: nat)
    ensures n <= |t|
  {
    if t == [] || !IsTokenByte(t[0]) then 0 else 1 + TokenRun(t[1..])
  }

  /** A value at the front of a text, and the rest of the text. */
  function ReadValue(t: bytes): (r: Option<(JsonValue, bytes)>)
    ensures r.Some? ==> |r.value.1| < |t|
    decreases |t|, 0
  {
    if t == [] then None
    else if t[0] == '\"' as int then
      match ReadString(t[1..])
      case None => None
      case Some((s, rest)) => Some((Text(s), rest))
    else if t[0] == '[' as int then
      if |t| > 1 && t[1] == ']' as int then Some((List([]), t[2..]))
      else
        match ReadItems(t[1..])
        case None => None
        case Some((items, rest)) => Some((List(items), rest))
    else
      var n := TokenRun(t);
      if n == 0 then None else Some((Interpret(t[..n]), t[n..]))
  }

  /** Values separated by commas, up to a closing bracket. */
  function ReadItems(t: bytes): (r: Option<(seq<JsonValue>, bytes)>)
    ensures r.Some? ==> |r.value.1| < |t|
    decreases |t|, 1
  {
    match ReadValue(t)
    case None => None
    case Some((item, rest)) =>
      if rest == [] then None
      else if rest[0] == ']' as int then Some(([item], rest[1..]))
      else if rest[0] != ',' as int then None
      else
        match ReadItems(rest[1..])
        case None => None
        case Some((items, end)) => Some(([item] + items, end))
  }

  /** A text that no token can go on into. */
  predicate EndsTokens(t: bytes) {
    t != [] && !IsTokenByte(t[0])
  }

  lemma {:induction false} TokenRunOfConcat(token: bytes, rest: bytes)
    requires EndsTokens(rest) && forall i :: 0 <= i < |token| ==> IsTokenByte(token[i])
    ensures TokenRun(token + rest) == |token| && (token + rest)[..|token|] == token && (token + rest)[|token|..] == rest
  {
    if token == [] {
      assert token + rest == rest;
    } else {
      assert (token + rest)[1..] == token[1..] + rest;
      TokenRunOfConcat(token[1..], rest);
    }
  }

  lemma TokenRoundTrip(token: Token, rest: bytes)
    requires EndsTokens(rest)
    ensures ReadValue(token + rest) == Some((Interpret(token), rest))
  {
    hide Interpret;
    TokenRunOfConcat(token, rest);
    assert (token + rest)[0] == token[0];
  }

  lemma IntegerMeans(n: int)
    ensures Interpret(Integer(n)) == Whole(n)
  {
    var token := Integer(n);
    assert Ascii("null")[0] == 'n' as int && Ascii("true")[0] == 't' as int && Ascii("false")[0] == 'f' as int;
    if n < 0 {
      assert token[0] == '-' as int && token[1..] == Decimal(-n);
    } else {
      assert IsDigit(token[0]);
    }
  }

  lemma QuotedRoundTrip(s: bytes, rest: bytes)
    ensures ReadValue(JsonString(s) + rest) == Some((Text(s), rest))
  {
    var t := JsonString(s) + rest;
    assert t[1..] == Escape(s) + [QUOTE] + rest;
    StringRoundTrip(s, rest);
  }

  lemma ScalarTokens(fmt: FloatFormat, v: Variant, rest: bytes)
    requires Supported(v) && !v.Array? && EndsTokens(rest)
    ensures SerializeVariant(fmt, v).Ok?
    ensures ReadValue(SerializeVariant(fmt, v).value + rest) == Some((Meaning(fmt, v), rest))
  {
    hide ReadValue, Interpret, Integer;
    if v.UaString? && v.text.Some? {
      QuotedRoundTrip(v.text.value, rest);
    } else {
      SerializesIffSupported(fmt, v);
      var token: Token := SerializeVariant(fmt, v).value;
      TokenRoundTrip(token, rest);
      TokenMeaning(fmt, v);
    }
  }

  lemma TokenMeaning(fmt: FloatFormat, v: Variant)
    requires Supported(v) && !v.Array? && !(v.UaString? && v.text.Some?) && SerializeVariant(fmt, v).Ok?
    ensures Interpret(SerializeVariant(fmt, v).value) == Meaning(fmt, v)
  {
    hide Integer;
    assert NULL == Ascii("null") && TRUE == Ascii("true") && FALSE == Ascii("false");
    match v
    case SByte(n) => IntegerMeans(n);
    case Byte(n) => IntegerMeans(n);
    case Int16(n) => IntegerMeans(n);
    case UInt16(n) => IntegerMeans(n);
    case Int32(n) => IntegerMeans(n);
    case UInt32(n) => IntegerMeans(n);
    case Int64(n) => IntegerMeans(n);
    case UInt64(n) => IntegerMeans(n);
    case _ =>
  }

  /** A reader finds at the front of a text the meaning of the value written there. */
  lemma {:induction false} ValueRoundTrip(fmt: FloatFormat, v: Variant, rest: bytes)
    requires Supported(v) && EndsTokens(rest)
    ensures SerializeVariant(fmt, v).Ok?
    ensures ReadValue(SerializeVariant(fmt, v).value + rest) == Some((Meaning(fmt, v), rest))
    decreases v, 1
  {
    SerializesIffSupported(fmt, v);
    if !v.Array? {
      ScalarTokens(fmt, v, rest);
    } else {
      ItemsSerializeIffSupported(fmt, v.values);
      var items := SerializeItems(fmt, v.values).value;
      var t := SerializeVariant(fmt, v).value + rest;
      assert t == [OPEN_BRACKET] + (items + ([CLOSE_BRACKET] + rest));
      assert t[1..] == items + ([CLOSE_BRACKET] + rest);
      if v.values == [] {
        assert t[2..] == rest;
      } else {
        ValuesStart(fmt, v.values);
        ValuesRoundTrip(fmt, v.values, rest);
        assert t[1] == items[0];
      }
    }
  }

  lemma ValuesStart(fmt: FloatFormat, values: seq<Variant>)
    requires values != [] && SerializeItems(fmt, values).Ok?
    ensures SerializeItems(fmt, values).value != [] && SerializeItems(fmt, values).value[0] != CLOSE_BRACKET
  {
    ValueStarts(fmt, values[0]);
  }

  lemma ValueStarts(fmt: FloatFormat, v: Variant)
    requires SerializeVariant(fmt, v).Ok?
    ensures SerializeVariant(fmt, v).value != [] && SerializeVariant(fmt, v).value[0] != CLOSE_BRACKET
  {
    hide Integer;
  }

  lemma {:induction false} ValuesRoundTrip(fmt: FloatFormat, values: seq<Variant>, rest: bytes)
    requires values != [] && forall i :: 0 <= i < |values| ==> Supported(values[i])
    ensures SerializeItems(fmt, values).Ok?
    ensures ReadItems(SerializeItems(fmt, values).value + ([CLOSE_BRACKET] + rest)) ==
            Some((Meanings(fmt, values), rest))
    decreases values, 0
  {
    hide ReadValue, Meaning, SerializeVariant;
    ItemsSerializeIffSupported(fmt, values);
    SerializesIffSupported(fmt, values[0]);
    var head := SerializeVariant(fmt, values[0]).value;
    if |values| == 1 {
      ValueRoundTrip(fmt, values[0], [CLOSE_BRACKET] + rest);
      assert ([CLOSE_BRACKET] + rest)[1..] == rest;
      assert values[1..] == [] && Meanings(fmt, values) == [Meaning(fmt, values[0])];
    } else {
      var tail := SerializeItems(fmt, values[1..]).value;
      var next := [COMMA] + (tail + ([CLOSE_BRACKET] + rest));
      assert SerializeItems(fmt, values).value + ([CLOSE_BRACKET] + rest) == head + next;
      ValueRoundTrip(fmt, values[0], next);
      assert next[1..] == tail + ([CLOSE_BRACKET] + rest);
      ValuesRoundTrip(fmt, values[1..], rest);
    }
  }
}
