/** OPC-UA values, as read from the machines. */
module Variants {
  import opened Wrappers
  import opened Bytes

  type u8 = x: int | 0 <= x < 0x100
  type u16 = x: int | 0 <= x < 0x1_0000
  type u32 = x: int | 0 <= x < 0x1_0000_0000
  type u64 = x: int | 0 <= x < 0x1_0000_0000_0000_0000
  type i8 = x: int | -0x80 <= x < 0x80
  type i16 = x: int | -0x8000 <= x < 0x8000
  type i32 = x: int | -0x8000_0000 <= x < 0x8000_0000
  type i64 = x: int | -0x8000_0000_0000_0000 <= x < 0x8000_0000_0000_0000

  // ---------------------------------------------------------------------------
  // UTF-8 text
  // ---------------------------------------------------------------------------

  predicate IsContinuation(b: byte) {
    0x80 <= b < 0xC0
  }

  /** Length of the well-formed UTF-8 sequence a string starts with, 0 when it is ill-formed. */
  function SequenceLength(s: bytes): (n: nat)
    ensures n <= |s|
  {
    if s == [] then 0
    else if s[0] < 0x80 then 1
    else if |s| < 2 || !IsContinuation(s[1]) then 0
    else if 0xC2 <= s[0] <= 0xDF then 2
    else if |s| < 3 || !IsContinuation(s[2]) then 0
    else if s[0] == 0xE0 then (if 0xA0 <= s[1] then 3 else 0)
    else if s[0] == 0xED then (if s[1] < 0xA0 then 3 else 0)
    else if 0xE1 <= s[0] <= 0xEF then 3
    else if |s| < 4 || !IsContinuation(s[3]) then 0
    else if s[0] == 0xF0 then (if 0x90 <= s[1] then 4 else 0)
    else if s[0] == 0xF4 then (if s[1] < 0x90 then 4 else 0)
    else if 0xF1 <= s[0] <= 0xF3 then 4
    else 0
  }

  predicate ValidUtf8(s: bytes)
    decreases |s|
  {
    s == [] || (SequenceLength(s) > 0 && ValidUtf8(s[SequenceLength(s)..]))
  }

  type Utf8 = s: bytes | ValidUtf8(s)

  lemma {:induction false} AsciiIsUtf8(s: bytes)
    requires forall i :: 0 <= i < |s| ==> s[i] < 0x80
    ensures ValidUtf8(s)
  {
    if s != [] {
      AsciiIsUtf8(s[1..]);
    }
  }

  lemma {:induction false} Utf8ThenAscii(s: bytes, t: bytes)
    requires ValidUtf8(s) && forall i :: 0 <= i < |t| ==> t[i] < 0x80
    ensures ValidUtf8(s + t)
    decreases |s|
  {
    if s == [] {
      assert s + t == t;
      AsciiIsUtf8(t);
    } else {
      var n := SequenceLength(s);
      assert (s + t)[n..] == s[n..] + t;
      Utf8ThenAscii(s[n..], t);
    }
  }

  // ---------------------------------------------------------------------------
  // Values
  // ---------------------------------------------------------------------------

  /** An OPC-UA value. Floating-point values are their IEEE 754 bits. `Other` is a value of a
      type the gateway does not support, with whatever its binary encoding is. */
  datatype Variant =
    | Empty
    | Boolean(truth: bool)
    | SByte(sbyte: i8)
    | Byte(octet: u8)
    | Int16(int16: i16)
    | UInt16(uint16: u16)
    | Int32(int32: i32)
    | UInt32(uint32: u32)
    | Int64(int64: i64)
    | UInt64(uint64: u64)
    | Float(single: u32)
    | Double(double: u64)
    | UaString(text: Option<Utf8>)
    | Array(itemType: u8, values: seq<Variant>, dimensions: Option<seq<u32>>)
    | Other(otherType: u8, encoded: bytes)

  const STRING_TYPE: u8 := 12
  const LAST_TYPE: u8 := 25
  const ARRAY_FLAG: u8 := 0x80
  const DIMENSIONS_FLAG: u8 := 0x40

  /** Built-in type identifier (OPC 10000-6, section 5.1.2); arrays have none of their own. */
  function TypeId(v: Variant): u8 {
    match v
    case Empty => 0
    case Boolean(_) => 1
    case SByte(_) => 2
    case Byte(_) => 3
    case Int16(_) => 4
    case UInt16(_) => 5
    case Int32(_) => 6
    case UInt32(_) => 7
    case Int64(_) => 8
    case UInt64(_) => 9
    case Float(_) => 10
    case Double(_) => 11
    case UaString(_) => STRING_TYPE
    case Array(_, _, _) => ARRAY_FLAG
    case Other(t, _) => t
  }

  /** What the OPC-UA library guarantees of every value: lengths fit in 32-bit signed integers,
      and an array holds items of its item type only. */
  predicate Representable(v: Variant) {
    match v
    case UaString(Some(s)) => |s| < 0x8000_0000
    case Array(t, values, _) =>
      && 1 <= t <= LAST_TYPE
      && |values| < 0x8000_0000
      && forall i :: 0 <= i < |values| ==> TypeId(values[i]) == t && Representable(values[i])
    case Other(t, _) => STRING_TYPE < t <= LAST_TYPE
    case _ => true
  }

  /** The values a part sheet can be archived with. */
  predicate Supported(v: Variant) {
    match v
    case Array(_, values, dimensions) =>
      dimensions.None? && forall i :: 0 <= i < |values| ==> Supported(values[i])
    case Other(_, _) => false
    case _ => true
  }
}
