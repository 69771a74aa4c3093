/** The OPC-UA binary encoding of values (OPC 10000-6, section 5.2). */
module BinaryEncoding {
  import opened Wrappers
  import opened Bytes
  import opened Variants

  datatype DecodeError = UnexpectedEnd | InvalidUtf8 | BadLength(length: int) | UnsupportedType(mask: u8)

  type Decoded<T> = Result<(T, bytes), DecodeError>

  // ---------------------------------------------------------------------------
  // Little-endian integers (section 5.2.2.2)
  // ---------------------------------------------------------------------------

  function Power256(n: nat): nat {
    if n == 0 then 1 else 0x100 * Power256(n - 1)
  }

  function LittleEndian(v: nat, width: nat): (s: bytes)
    ensures |s| == width
  {
    if width == 0 then [] else [v % 0x100] + LittleEndian(v / 0x100, width - 1)
  }

  function FromLittleEndian(s: bytes): (v: nat)
    ensures v < Power256(|s|)
  {
    if s == [] then 0 else s[0] + 0x100 * FromLittleEndian(s[1..])
  }

  lemma {:induction false} LittleEndianRoundTrip(v: nat, width: nat)
    requires v < Power256(width)
    ensures FromLittleEndian(LittleEndian(v, width)) == v
  {
    if width > 0 {
      LittleEndianRoundTrip(v / 0x100, width - 1);
      assert LittleEndian(v, width)[1..] == LittleEndian(v / 0x100, width - 1);
    }
  }

  /** The lowest byte comes first. */
  lemma LowestByteFirst(v: nat)
    ensures LittleEndian(v, 2) == [v % 0x100, v / 0x100 % 0x100]
    ensures LittleEndian(v, 4) == [v % 0x100, v / 0x100 % 0x100, v / 0x1_0000 % 0x100, v / 0x100_0000 % 0x100]
  {
    assert v / 0x100 / 0x100 == v / 0x1_0000 && v / 0x1_0000 / 0x100 == v / 0x100_0000;
    var rest := v / 0x1_0000;
    assert LittleEndian(rest, 2) == [rest % 0x100] + LittleEndian(rest / 0x100, 1);
    assert LittleEndian(rest / 0x100, 1) == [rest / 0x100 % 0x100] + LittleEndian(rest / 0x100 / 0x100, 0);
    assert LittleEndian(v, 2) == [v % 0x100] + LittleEndian(v / 0x100, 1);
    assert LittleEndian(v / 0x100, 1) == [v / 0x100 % 0x100] + LittleEndian(rest, 0);
    assert LittleEndian(v, 4) == [v % 0x100] + LittleEndian(v / 0x100, 3);
    assert LittleEndian(v / 0x100, 3) == [v / 0x100 % 0x100] + LittleEndian(rest, 2);
  }

  lemma Powers()
    ensures Power256(1) == 0x100 && Power256(2) == 0x1_0000 && Power256(4) == 0x1_0000_0000
    ensures Power256(8) == 0x1_0000_0000_0000_0000
  {
    assert Power256(4) == 0x1_0000 * Power256(2);
    assert Power256(6) == 0x1_0000 * Power256(4);
  }

  /** Takes a number of bytes off the front of a buffer. */
  function Take(buf: bytes, n: nat): Decoded<bytes> {
    if |buf| < n then Err(UnexpectedEnd) else Ok((buf[..n], buf[n..]))
  }

  function TakeInteger(buf: bytes, width: nat): Decoded<nat> {
    var (head, rest) :- Take(buf, width);
    Ok((FromLittleEndian(head), rest))
  }

  lemma TakeIntegerRoundTrip(v: nat, width: nat, tail: bytes)
    requires v < Power256(width)
    ensures TakeInteger(LittleEndian(v, width) + tail, width) == Ok((v, tail))
  {
    LittleEndianRoundTrip(v, width);
    var buf := LittleEndian(v, width) + tail;
    assert buf[..width] == LittleEndian(v, width) && buf[width..] == tail;
  }

  lemma TakeExtends(buf: bytes, n: nat, tail: bytes)
    requires Take(buf, n).Ok?
    ensures Take(buf + tail, n) == Ok((Take(buf, n).value.0, Take(buf, n).value.1 + tail))
  {
    assert (buf + tail)[..n] == buf[..n] && (buf + tail)[n..] == buf[n..] + tail;
  }

  // ---------------------------------------------------------------------------
  // Scalars
  // ---------------------------------------------------------------------------

  predicate IsNumericType(t: u8) {
    1 <= t < STRING_TYPE
  }

  /** Encoded size of a numeric type, in bytes. */
  function Width(t: u8): nat
    requires IsNumericType(t)
  {
    match t
    case 1 | 2 | 3 => 1
    case 4 | 5 => 2
    case 6 | 7 | 10 => 4
    case _ => 8
  }

  /** The bits of a number: two's complement when it is signed. */
  function Bits(v: Variant): nat
    requires IsNumericType(TypeId(v)) && !v.Other?
  {
    match v
    case Boolean(b) => if b then 1 else 0
    case SByte(n) => if n < 0 then n + 0x100 else n
    case Byte(n) => n
    case Int16(n) => if n < 0 then n + 0x1_0000 else n
    case UInt16(n) => n
    case Int32(n) => if n < 0 then n + 0x1_0000_0000 else n
    case UInt32(n) => n
    case Int64(n) => if n < 0 then n + 0x1_0000_0000_0000_0000 else n
    case UInt64(n) => n
    case Float(bits) => bits
    case Double(bits) => bits
  }

  /** The number of a type that has the given bits. */
  function FromBits(t: u8, bits: nat): Variant
    requires IsNumericType(t) && bits < Power256(Width(t))
  {
    Powers();
    match t
    case 1 => Boolean(bits != 0)
    case 2 => SByte(if bits < 0x80 then bits else bits - 0x100)
    case 3 => Byte(bits)
    case 4 => Int16(if bits < 0x8000 then bits else bits - 0x1_0000)
    case 5 => UInt16(bits)
    case 6 => Int32(if bits < 0x8000_0000 then bits else bits - 0x1_0000_0000)
    case 7 => UInt32(bits)
    case 8 => Int64(if bits < 0x8000_0000_0000_0000 then bits else bits - 0x1_0000_0000_0000_0000)
    case 9 => UInt64(bits)
    case 10 => Float(bits)
    case _ => Double(bits)
  }

  lemma BitsRoundTrip(v: Variant)
    requires IsNumericType(TypeId(v)) && !v.Other?
    ensures Bits(v) < Power256(Width(TypeId(v)))
    ensures FromBits(TypeId(v), Bits(v)) == v
  {
    Powers();
  }

  predicate IsScalar(v: Variant) {
    !v.Empty? && !v.Array? && !v.Other?
  }

  /** A scalar without its type; a null string has length -1 (section 5.2.2.4). */
  function EncodeScalar(v: Variant): bytes
    requires IsScalar(v)
  {
    if v.UaString? then
      match v.text
      case None => LittleEndian(0xFFFF_FFFF, 4)
      case Some(s) => LittleEndian(|s| % 0x1_0000_0000, 4) + s
    else LittleEndian(Bits(v), Width(TypeId(v)))
  }

  function DecodeScalar(t: u8, buf: bytes): (r: Decoded<Variant>)
    ensures r.Ok? ==> |r.value.1| <= |buf|
  {
    if IsNumericType(t) then
      var (bits, rest) :- TakeInteger(buf, Width(t));
      Ok((FromBits(t, bits), rest))
    else if t == STRING_TYPE then
      var (length, rest) :- TakeInteger(buf, 4);
      if length == 0xFFFF_FFFF then Ok((UaString(None), rest))
      else if length >= 0x8000_0000 then Err(BadLength(length - 0x1_0000_0000))
      else
        var (text, rest) :- Take(rest, length);
        if ValidUtf8(text) then Ok((UaString(Some(text)), rest)) else Err(InvalidUtf8)
    else Err(UnsupportedType(t))
  }

  lemma NumberRoundTrip(v: Variant, tail: bytes)
    requires IsScalar(v) && !v.UaString?
    ensures DecodeScalar(TypeId(v), EncodeScalar(v) + tail) == Ok((v, tail))
  {
    BitsRoundTrip(v);
    TakeIntegerRoundTrip(Bits(v), Width(TypeId(v)), tail);
  }

  lemma StringRoundTrip(text: Option<Utf8>, tail: bytes)
    requires Representable(UaString(text))
    ensures DecodeScalar(STRING_TYPE, EncodeScalar(UaString(text)) + tail) == Ok((UaString(text), tail))
  {
    hide TakeInteger, LittleEndian;
    Powers();
    match text
    case None =>
      TakeIntegerRoundTrip(0xFFFF_FFFF, 4, tail);
    case Some(s) =>
      Associative(LittleEndian(|s|, 4), s, tail);
      TakeIntegerRoundTrip(|s|, 4, s + tail);
      assert (s + tail)[..|s|] == s && (s + tail)[|s|..] == tail;
  }

  lemma ScalarRoundTrip(v: Variant, tail: bytes)
    requires IsScalar(v) && Representable(v)
    ensures DecodeScalar(TypeId(v), EncodeScalar(v) + tail) == Ok((v, tail))
  {
    if v.UaString? {
      StringRoundTrip(v.text, tail);
    } else {
      NumberRoundTrip(v, tail);
    }
  }

  lemma ScalarExtends(t: u8, buf: bytes, tail: bytes)
    requires DecodeScalar(t, buf).Ok?
    ensures DecodeScalar(t, buf + tail) == Ok((DecodeScalar(t, buf).value.0, DecodeScalar(t, buf).value.1 + tail))
  {
    if IsNumericType(t) {
      TakeExtends(buf, Width(t), tail);
    } else {
      TakeExtends(buf, 4, tail);
      var (length, rest) := TakeInteger(buf, 4).value;
      if length < 0x8000_0000 {
        TakeExtends(rest, length, tail);
      }
    }
  }

  // ---------------------------------------------------------------------------
  // Arrays and values (sections 5.2.2.16 and 5.2.5)
  // ---------------------------------------------------------------------------

  /** An item of an array, which carries no type of its own; no item is empty or an array. */
  function EncodeItem(v: Variant): bytes {
    if IsScalar(v) then EncodeScalar(v) else if v.Other? then v.encoded else []
  }

  function EncodeAll(values: seq<Variant>): bytes {
    if values == [] then [] else EncodeItem(values[0]) + EncodeAll(values[1..])
  }

  function EncodeDimensions(dimensions: seq<u32>): bytes {
    if dimensions == [] then [] else LittleEndian(dimensions[0], 4) + EncodeDimensions(dimensions[1..])
  }

  /** A value: a byte for its type and flags, then its content. */
  function EncodeVariant(v: Variant): bytes {
    match v
    case Empty => [0]
    case Array(t, values, None) =>
      [(t + ARRAY_FLAG) % 0x100] + LittleEndian(|values| % 0x1_0000_0000, 4) + EncodeAll(values)
    case Array(t, values, Some(dimensions)) =>
      [(t + ARRAY_FLAG + DIMENSIONS_FLAG) % 0x100] + LittleEndian(|values| % 0x1_0000_0000, 4) + EncodeAll(values)
      + LittleEndian(|dimensions| % 0x1_0000_0000, 4) + EncodeDimensions(dimensions)
    case Other(_, encoded) => encoded
    case _ => [TypeId(v)] + EncodeScalar(v)
  }

  function DecodeAll(t: u8, count: nat, buf: bytes): Decoded<seq<Variant>> {
    if count == 0 then Ok(([], buf))
    else
      var (v, rest) :- DecodeScalar(t, buf);
      var (vs, rest) :- DecodeAll(t, count - 1, rest);
      Ok(([v] + vs, rest))
  }

  function DecodeArray(t: u8, buf: bytes): Decoded<Variant> {
    var (length, rest) :- TakeInteger(buf, 4);
    if length >= 0x8000_0000 then Err(BadLength(length - 0x1_0000_0000))
    else
      var (values, rest) :- DecodeAll(t, length, rest);
      Ok((Array(t, values, None), rest))
  }

  function DecodeVariant(buf: bytes): Decoded<Variant> {
    var (head, rest) :- Take(buf, 1);
    var mask := head[0];
    if mask == 0 then Ok((Empty, rest))
    else if mask <= LAST_TYPE then DecodeScalar(mask, rest)
    else if ARRAY_FLAG < mask <= ARRAY_FLAG + LAST_TYPE then DecodeArray(mask - ARRAY_FLAG, rest)
    else Err(UnsupportedType(mask))
  }

  lemma {:induction false} AllRoundTrip(t: u8, values: seq<Variant>, tail: bytes)
    requires forall i :: 0 <= i < |values| ==> TypeId(values[i]) == t && IsScalar(values[i]) && Representable(values[i])
    ensures DecodeAll(t, |values|, EncodeAll(values) + tail) == Ok((values, tail))
  {
    if values != [] {
      assert EncodeAll(values) + tail == EncodeScalar(values[0]) + (EncodeAll(values[1..]) + tail);
      ScalarRoundTrip(values[0], EncodeAll(values[1..]) + tail);
      AllRoundTrip(t, values[1..], tail);
      assert [values[0]] + values[1..] == values;
    } else {
      assert EncodeAll(values) + tail == tail;
    }
  }

  lemma {:induction false} AllExtends(t: u8, count: nat, buf: bytes, tail: bytes)
    requires DecodeAll(t, count, buf).Ok?
    ensures DecodeAll(t, count, buf + tail) ==
            Ok((DecodeAll(t, count, buf).value.0, DecodeAll(t, count, buf).value.1 + tail))
  {
    if count > 0 {
      ScalarExtends(t, buf, tail);
      AllExtends(t, count - 1, DecodeScalar(t, buf).value.1, tail);
    }
  }

  /** The items of a supported array are scalars of its item type. */
  lemma SupportedItems(v: Variant)
    requires v.Array? && Supported(v) && Representable(v)
    ensures forall i :: 0 <= i < |v.values| ==>
              TypeId(v.values[i]) == v.itemType && IsScalar(v.values[i]) && Representable(v.values[i])
  {
  }

  /** Content of an array, after its type. */
  function ArrayContent(values: seq<Variant>, tail: bytes): bytes {
    LittleEndian(|values| % 0x1_0000_0000, 4) + (EncodeAll(values) + tail)
  }

  lemma ArrayLayout(v: Variant, tail: bytes)
    requires v.Array? && v.dimensions.None? && 1 <= v.itemType <= LAST_TYPE
    ensures EncodeVariant(v) + tail == [v.itemType + ARRAY_FLAG] + ArrayContent(v.values, tail)
  {
  }

  lemma ArrayContentRoundTrip(t: u8, values: seq<Variant>, tail: bytes)
    requires |values| < 0x8000_0000
    requires forall i :: 0 <= i < |values| ==> TypeId(values[i]) == t && IsScalar(values[i]) && Representable(values[i])
    ensures DecodeArray(t, ArrayContent(values, tail)) == Ok((Array(t, values, None), tail))
  {
    hide TakeInteger, LittleEndian, EncodeAll, DecodeAll;
    Powers();
    TakeIntegerRoundTrip(|values|, 4, EncodeAll(values) + tail);
    AllRoundTrip(t, values, tail);
  }

  /** Decoding an encoded value, whatever comes after it, gives it back. */
  lemma VariantRoundTrip(v: Variant, tail: bytes)
    requires Supported(v) && Representable(v)
    ensures DecodeVariant(EncodeVariant(v) + tail) == Ok((v, tail))
  {
    hide DecodeScalar, DecodeArray, ArrayContent, EncodeScalar;
    var buf := EncodeVariant(v) + tail;
    if v.Array? {
      SupportedItems(v);
      ArrayLayout(v, tail);
      assert buf[1..] == ArrayContent(v.values, tail);
      ArrayContentRoundTrip(v.itemType, v.values, tail);
    } else if v.Empty? {
      assert buf[1..] == tail;
    } else {
      ScalarLayout(v, tail);
      assert buf[1..] == EncodeScalar(v) + tail;
      ScalarRoundTrip(v, tail);
    }
  }

  lemma ScalarLayout(v: Variant, tail: bytes)
    requires IsScalar(v)
    ensures EncodeVariant(v) + tail == [TypeId(v)] + (EncodeScalar(v) + tail)
  {
    hide EncodeScalar;
  }

  lemma ArrayExtends(t: u8, buf: bytes, tail: bytes)
    requires DecodeArray(t, buf).Ok?
    ensures DecodeArray(t, buf + tail) == Ok((DecodeArray(t, buf).value.0, DecodeArray(t, buf).value.1 + tail))
  {
    TakeExtends(buf, 4, tail);
    var (length, items) := TakeInteger(buf, 4).value;
    AllExtends(t, length, items, tail);
  }

  /** A successful decoding does not depend on the bytes it leaves unread. */
  lemma VariantExtends(buf: bytes, tail: bytes)
    requires DecodeVariant(buf).Ok?
    ensures DecodeVariant(buf + tail) == Ok((DecodeVariant(buf).value.0, DecodeVariant(buf).value.1 + tail))
  {
    TakeExtends(buf, 1, tail);
    var mask := buf[0];
    var rest := buf[1..];
    if mask != 0 && mask <= LAST_TYPE {
      ScalarExtends(mask, rest, tail);
    } else if mask != 0 {
      ArrayExtends(mask - ARRAY_FLAG, rest, tail);
    }
  }

  // ---------------------------------------------------------------------------
  // Sizes
  // ---------------------------------------------------------------------------

  function ScalarSize(v: Variant): nat
    requires IsScalar(v)
  {
    if v.UaString? then (if v.text.None? then 4 else 4 + |v.text.value|) else Width(TypeId(v))
  }

  function TotalSize(values: seq<Variant>): nat {
    if values == [] then 0
    else
      var v := values[0];
      (if IsScalar(v) then ScalarSize(v) else if v.Other? then |v.encoded| else 0) + TotalSize(values[1..])
  }

  /** Size of an encoded value, without encoding it. */
  function VariantSize(v: Variant): nat {
    match v
    case Empty => 1
    case Array(_, values, None) => 5 + TotalSize(values)
    case Array(_, values, Some(dimensions)) => 9 + TotalSize(values) + 4 * |dimensions|
    case Other(_, encoded) => |encoded|
    case _ => 1 + ScalarSize(v)
  }

  lemma {:induction false} EncodeAllSize(values: seq<Variant>)
    ensures |EncodeAll(values)| == TotalSize(values)
  {
    if values != [] {
      EncodeAllSize(values[1..]);
    }
  }

  lemma {:induction false} EncodeDimensionsSize(dimensions: seq<u32>)
    ensures |EncodeDimensions(dimensions)| == 4 * |dimensions|
  {
    if dimensions != [] {
      EncodeDimensionsSize(dimensions[1..]);
    }
  }

  lemma EncodeVariantSize(v: Variant)
    ensures |EncodeVariant(v)| == VariantSize(v)
  {
    if v.Array? {
      EncodeAllSize(v.values);
      if v.dimensions.Some? {
        EncodeDimensionsSize(v.dimensions.value);
      }
    }
  }
}
