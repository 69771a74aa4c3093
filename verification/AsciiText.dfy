/** Fixed-size strings of ASCII digits and uppercase letters. */
module AsciiText {
  import opened Wrappers
  import opened Bytes

  datatype AsciiTextError =
    | BadLength(actual: nat, expected: nat)
    | InvalidChar(bad: byte, position: nat)

  predicate IsDigitOrUpper(b: byte) {
    IsDigit(b) || IsUpper(b)
  }

  predicate AllDigitsOrUpper(s: bytes) {
    forall i :: 0 <= i < |s| ==> IsDigitOrUpper(s[i])
  }

  /** The two-character codes: raw material batch and production line. */
  type Code2 = s: bytes | |s| == 2 && AllDigitsOrUpper(s) witness [0x30, 0x30]

  /** A part identifier. */
  type PartId = s: bytes | |s| == 23 && AllDigitsOrUpper(s) witness Zeros(23)

  /** Index of the first character that is neither a digit nor an uppercase letter. */
  function BadIndex(s: bytes): (i: nat)
    ensures i <= |s|
    ensures AllDigitsOrUpper(s[..i])
    ensures i < |s| ==> !IsDigitOrUpper(s[i])
  {
    if s == [] || !IsDigitOrUpper(s[0]) then 0
    else
      var i := 1 + BadIndex(s[1..]);
      assert s[..i] == [s[0]] + s[1..][..i - 1];
      i
  }

  /** Accepts a string of the expected length made of allowed characters only; the error
      carries the length, or the first bad character and its position counted from one. */
  function TryFrom(value: bytes, length: nat): (r: Result<bytes, AsciiTextError>)
    ensures r.Ok? <==> |value| == length && AllDigitsOrUpper(value)
    ensures r.Ok? ==> r.value == value
    ensures r.Err? && r.error.BadLength? ==>
              |value| != length && r.error == BadLength(|value|, length)
    ensures r.Err? && r.error.InvalidChar? ==>
              && |value| == length
              && 1 <= r.error.position <= length
              && value[r.error.position - 1] == r.error.bad
              && !IsDigitOrUpper(r.error.bad)
              && AllDigitsOrUpper(value[..r.error.position - 1])
  {
    if |value| != length then Err(BadLength(|value|, length))
    else
      var i := BadIndex(value);
      assert value[..|value|] == value;
      if i < |value| then Err(InvalidChar(value[i], i + 1)) else Ok(value)
  }
}
