/** Part references, and the identifiers built from them. */
module PartIdentifier {
  import opened Wrappers
  import opened Bytes
  import opened AsciiText
  import opened Calendar
  import opened Variants

  datatype PartIdentifierError =
    | PartReferenceError(text: bytes)
    | SerialTooBig(serial: nat)
    | InvalidYearAndDay(text: bytes)
    | InvalidSerial(text: bytes)

  /** The captured parts of a reference. */
  datatype PartReference = PartReference(family: bytes, incremental: bytes, size: bytes)

  predicate IsAscii(s: bytes) {
    forall i :: 0 <= i < |s| ==> s[i] < 0x80
  }

  /** What the expression captures out of a text that is not all ASCII, padded and put together;
      `\d` knows the digits of all scripts, so this can be about anything. */
  type UnicodeReader = bytes -> Option<Utf8>

  const LETTER_P: byte := 'P' as int
  const DASH: byte := '-' as int

  // ---------------------------------------------------------------------------
  // The regular expression, as a language
  // ---------------------------------------------------------------------------

  /** One way to split a text along `^P?(\d{1,2})-(\d{3,4})[A-Za-z]{2,4}(\d{2,3})(?:\D|$)`. */
  datatype Split = Split(prefix: bytes, captured: PartReference, joint: bytes, rest: bytes)

  predicate AllLetters(s: bytes) {
    forall i :: 0 <= i < |s| ==> IsLetter(s[i])
  }

  // The expression, one group at a time, each followed by the groups after it.

  ghost predicate IsSizeSplit(s: bytes, size: bytes, rest: bytes) {
    s == size + rest && AllDigits(size) && 2 <= |size| <= 3 && (rest == [] || !IsDigit(rest[0]))
  }

  ghost predicate IsJointSplit(s: bytes, joint: bytes, size: bytes, rest: bytes) {
    s == joint + (size + rest) && AllLetters(joint) && 2 <= |joint| <= 4 && IsSizeSplit(size + rest, size, rest)
  }

  ghost predicate IsIncrementalSplit(s: bytes, incremental: bytes, joint: bytes, size: bytes, rest: bytes) {
    && s == incremental + (joint + (size + rest))
    && AllDigits(incremental) && 3 <= |incremental| <= 4
    && IsJointSplit(joint + (size + rest), joint, size, rest)
  }

  ghost predicate IsFamilySplit(s: bytes, m: Split) {
    var c := m.captured;
    var tail := c.incremental + (m.joint + (c.size + m.rest));
    && s == c.family + (['-' as int] + tail)
    && AllDigits(c.family) && 1 <= |c.family| <= 2
    && IsIncrementalSplit(tail, c.incremental, m.joint, c.size, m.rest)
  }

  ghost predicate IsSplit(s: bytes, m: Split) {
    && (m.prefix == [] || m.prefix == ['P' as int])
    && m.prefix <= s
    && IsFamilySplit(s[|m.prefix|..], m)
  }

  // ---------------------------------------------------------------------------
  // The scan
  // ---------------------------------------------------------------------------

  /** Number of digits a text starts with. */
  function DigitRun(s: bytes): (n: nat)
    ensures n <= |s| && AllDigits(s[..n])
    ensures n < |s| ==> !IsDigit(s[n])
  {
    if s == [] || !IsDigit(s[0]) then 0
    else
      var n := 1 + DigitRun(s[1..]);
      assert s[..n] == [s[0]] + s[1..][..n - 1];
      n
  }

  /** Number of letters a text starts with. */
  function LetterRun(s: bytes): (n: nat)
    ensures n <= |s| && AllLetters(s[..n])
    ensures n < |s| ==> !IsLetter(s[n])
  {
    if s == [] || !IsLetter(s[0]) then 0
    else
      var n := 1 + LetterRun(s[1..]);
      assert s[..n] == [s[0]] + s[1..][..n - 1];
      n
  }

  lemma {:induction false} DigitRunOfConcat(a: bytes, b: bytes)
    requires AllDigits(a) && (b == [] || !IsDigit(b[0]))
    ensures DigitRun(a + b) == |a| && (a + b)[..|a|] == a && (a + b)[|a|..] == b
  {
    if a == [] {
      assert a + b == b;
    } else {
      assert (a + b)[1..] == a[1..] + b;
      DigitRunOfConcat(a[1..], b);
    }
  }

  lemma {:induction false} LetterRunOfConcat(a: bytes, b: bytes)
    requires AllLetters(a) && (b == [] || !IsLetter(b[0]))
    ensures LetterRun(a + b) == |a| && (a + b)[..|a|] == a && (a + b)[|a|..] == b
  {
    if a == [] {
      assert a + b == b;
    } else {
      assert (a + b)[1..] == a[1..] + b;
      LetterRunOfConcat(a[1..], b);
    }
  }

  // Left-to-right scan of a part reference, without backtracking.

  function ScanSize(s: bytes): Option<(bytes, bytes)> {
    var n := DigitRun(s);
    if 2 <= n <= 3 then Some((s[..n], s[n..])) else None
  }

  function ScanJoint(s: bytes): Option<(bytes, bytes, bytes)> {
    var n := LetterRun(s);
    if !(2 <= n <= 4) then None else
    match ScanSize(s[n..])
    case None => None
    case Some((size, rest)) => Some((s[..n], size, rest))
  }

  function ScanIncremental(s: bytes): Option<(bytes, bytes, bytes, bytes)> {
    var n := DigitRun(s);
    if !(3 <= n <= 4) then None else
    match ScanJoint(s[n..])
    case None => None
    case Some((joint, size, rest)) => Some((s[..n], joint, size, rest))
  }

  function ScanFamily(s: bytes, prefix: bytes): Option<Split> {
    var n := DigitRun(s);
    if !(1 <= n <= 2) || n == |s| || s[n] != DASH then None else
    match ScanIncremental(s[n + 1..])
    case None => None
    case Some((incremental, joint, size, rest)) =>
      Some(Split(prefix, PartReference(s[..n], incremental, size), joint, rest))
  }

  function Scan(s: bytes): Option<Split> {
    if s != [] && s[0] == LETTER_P then ScanFamily(s[1..], [LETTER_P]) else ScanFamily(s, [])
  }

  function ScanReference(s: bytes): Option<PartReference> {
    match Scan(s)
    case None => None
    case Some(m) => Some(m.captured)
  }

  lemma ScanSizeIff(s: bytes, size: bytes, rest: bytes)
    ensures ScanSize(s) == Some((size, rest)) <==> IsSizeSplit(s, size, rest)
  {
    var n := DigitRun(s);
    assert s == s[..n] + s[n..];
    if IsSizeSplit(s, size, rest) {
      DigitRunOfConcat(size, rest);
    }
  }

  lemma ScanJointIff(s: bytes, joint: bytes, size: bytes, rest: bytes)
    ensures ScanJoint(s) == Some((joint, size, rest)) <==> IsJointSplit(s, joint, size, rest)
  {
    var n := LetterRun(s);
    assert s == s[..n] + s[n..];
    ScanSizeIff(s[n..], size, rest);
    if IsJointSplit(s, joint, size, rest) {
      assert (size + rest)[0] == size[0];
      LetterRunOfConcat(joint, size + rest);
    }
  }

  lemma ScanIncrementalIff(s: bytes, incremental: bytes, joint: bytes, size: bytes, rest: bytes)
    ensures ScanIncremental(s) == Some((incremental, joint, size, rest)) <==>
            IsIncrementalSplit(s, incremental, joint, size, rest)
  {
    var n := DigitRun(s);
    assert s == s[..n] + s[n..];
    ScanJointIff(s[n..], joint, size, rest);
    if IsIncrementalSplit(s, incremental, joint, size, rest) {
      assert (joint + (size + rest))[0] == joint[0];
      DigitRunOfConcat(incremental, joint + (size + rest));
    }
  }

  lemma ScanFamilyIff(s: bytes, m: Split)
    ensures ScanFamily(s, m.prefix) == Some(m) <==> IsFamilySplit(s, m)
  {
    var c := m.captured;
    var tail := c.incremental + (m.joint + (c.size + m.rest));
    var n := DigitRun(s);
    hide ScanIncremental, IsJointSplit;
    if n < |s| && s[n] == DASH {
      assert s == s[..n] + ([DASH] + s[n + 1..]);
      ScanIncrementalIff(s[n + 1..], c.incremental, m.joint, c.size, m.rest);
    }
    if IsFamilySplit(s, m) {
      DigitRunOfConcat(c.family, [DASH] + tail);
      ScanIncrementalIff(tail, c.incremental, m.joint, c.size, m.rest);
      assert s[n] == (s[n..])[0] == DASH;
      assert s[n + 1..] == (s[n..])[1..] == tail;
    }
  }

  lemma StartsWithDigit(s: bytes, m: Split)
    requires m.prefix == [] && IsSplit(s, m)
    ensures s != [] && IsDigit(s[0])
  {
    assert s == s[0..];
    assert s[0] == m.captured.family[0];
  }

  /** The scan finds a split exactly when it is one. A text therefore matches in at most one
      way, and the captures do not depend on how the regex engine backtracks. */
  lemma ScanIff(s: bytes, m: Split)
    ensures Scan(s) == Some(m) <==> IsSplit(s, m)
  {
    if s != [] && s[0] == LETTER_P {
      ScanFamilyIff(s[1..], m);
      if m.prefix == [] && IsSplit(s, m) {
        StartsWithDigit(s, m);
        assert false;
      }
    } else {
      assert s[0..] == s;
      ScanFamilyIff(s, m);
    }
  }

  /** A text is refused exactly when no split of it matches. */
  lemma ScanRefusesIff(s: bytes)
    ensures Scan(s).None? <==> !exists m :: IsSplit(s, m)
  {
    forall m ensures Scan(s) == Some(m) <==> IsSplit(s, m) {
      ScanIff(s, m);
    }
    if Scan(s).Some? {
      assert IsSplit(s, Scan(s).value);
    }
  }

  lemma SplitIsUnique(s: bytes, m: Split, n: Split)
    requires IsSplit(s, m) && IsSplit(s, n)
    ensures m == n
  {
    ScanIff(s, m);
    ScanIff(s, n);
  }

  // ---------------------------------------------------------------------------
  // Normalised references
  // ---------------------------------------------------------------------------

  /** The reference as nine digits. */
  function Normalised(r: PartReference): bytes {
    PadLeft(r.family, 2) + PadLeft(r.incremental, 4) + PadLeft(r.size, 3)
  }

  predicate IsScanned(r: PartReference) {
    && AllDigits(r.family) && 1 <= |r.family| <= 2
    && AllDigits(r.incremental) && 3 <= |r.incremental| <= 4
    && AllDigits(r.size) && 2 <= |r.size| <= 3
  }

  lemma ScannedReference(s: bytes)
    requires ScanReference(s).Some?
    ensures IsScanned(ScanReference(s).value)
  {
    var m := Scan(s).value;
    ScanIff(s, m);
  }

  lemma NormalisedFacts(r: PartReference)
    requires IsScanned(r)
    ensures |Normalised(r)| == 9 && AllDigits(Normalised(r))
    ensures Normalised(r)[..2] == PadLeft(r.family, 2)
    ensures Normalised(r)[2..6] == PadLeft(r.incremental, 4)
    ensures Normalised(r)[6..] == PadLeft(r.size, 3)
  {
    PadLeftFacts(r.family, 2);
    PadLeftFacts(r.incremental, 4);
    PadLeftFacts(r.size, 3);
  }

  /** Two references get the same nine digits exactly when their three numbers are equal. */
  lemma NormalisedIffSameNumbers(a: PartReference, b: PartReference)
    requires IsScanned(a) && IsScanned(b)
    ensures Normalised(a) == Normalised(b) <==>
            && NumberOf(a.family) == NumberOf(b.family)
            && NumberOf(a.incremental) == NumberOf(b.incremental)
            && NumberOf(a.size) == NumberOf(b.size)
  {
    NormalisedFacts(a);
    NormalisedFacts(b);
    PadLeftFacts(a.family, 2);
    PadLeftFacts(b.family, 2);
    PadLeftFacts(a.incremental, 4);
    PadLeftFacts(b.incremental, 4);
    PadLeftFacts(a.size, 3);
    PadLeftFacts(b.size, 3);
    SameWidthSameNumber(PadLeft(a.family, 2), PadLeft(b.family, 2));
    SameWidthSameNumber(PadLeft(a.incremental, 4), PadLeft(b.incremental, 4));
    SameWidthSameNumber(PadLeft(a.size, 3), PadLeft(b.size, 3));
  }

  // ---------------------------------------------------------------------------
  // Creation
  // ---------------------------------------------------------------------------

  /** The serial number as formatted by `{:05}`. */
  function SerialText(serial: nat): bytes {
    PadLeft(Decimal(serial), 5)
  }

  /** A reference as the identifier starts with it. */
  function ReferenceText(unicode: UnicodeReader, reference: Utf8): Option<Utf8> {
    if !IsAscii(reference) then unicode(reference)
    else
      match ScanReference(reference)
      case None => None
      case Some(r) =>
        ScannedReference(reference);
        NormalisedFacts(r);
        AsciiIsUtf8(Normalised(r));
        Some(Normalised(r))
  }

  /** The last 14 characters of an identifier. */
  function Suffix(batch: Code2, line: Code2, today: Date, serial: nat): (s: bytes)
    requires serial <= 99999
    ensures |s| == 14 && IsAscii(s)
  {
    SerialTextFacts(serial);
    batch + line + YearAndDay(today) + SerialText(serial)
  }

  function CreatePartIdentifier(unicode: UnicodeReader, reference: Utf8, batch: Code2, line: Code2, today: Date,
                                serial: nat)
    : Result<Utf8, PartIdentifierError>
  {
    if serial > 99999 then Err(SerialTooBig(serial))
    else
      match ReferenceText(unicode, reference)
      case None => Err(PartReferenceError(reference))
      case Some(text) =>
        Utf8ThenAscii(text, Suffix(batch, line, today, serial));
        Ok(text + Suffix(batch, line, today, serial))
  }

  lemma SerialTextFacts(serial: nat)
    requires serial <= 99999
    ensures |SerialText(serial)| == 5 && AllDigits(SerialText(serial))
    ensures NumberOf(SerialText(serial)) == serial
  {
    assert Power10(5) == 100000;
    DecimalWidth(serial, 5);
    PadLeftFacts(Decimal(serial), 5);
  }

  /** The inputs of a creation. */
  datatype Creation = Creation(reference: Utf8, batch: Code2, line: Code2, today: Date, serial: nat) {
    function Identifier(unicode: UnicodeReader): Result<Utf8, PartIdentifierError> {
      CreatePartIdentifier(unicode, reference, batch, line, today, serial)
    }
  }

  /** Where each field of an identifier of 23 characters starts and ends. */
  ghost predicate HasFields(id: bytes, reference: bytes, batch: bytes, line: bytes, yearAndDay: bytes, serial: bytes) {
    && |id| == 23
    && id[..9] == reference && id[9..11] == batch && id[11..13] == line
    && id[13..18] == yearAndDay && id[18..] == serial
  }

  /** The fields of an identifier made of a reference of nine characters, each at its fixed place. */
  lemma CreatedLayout(unicode: UnicodeReader, c: Creation)
    requires c.Identifier(unicode).Ok?
    ensures c.serial <= 99999 && ReferenceText(unicode, c.reference).Some?
    ensures |ReferenceText(unicode, c.reference).value| == 9 ==>
              HasFields(c.Identifier(unicode).value, ReferenceText(unicode, c.reference).value,
                        c.batch, c.line, YearAndDay(c.today), SerialText(c.serial))
  {
    hide ReferenceText;
    SerialTextFacts(c.serial);
  }

  /** The reference of an ASCII text is nine digits. */
  lemma AsciiReferenceText(unicode: UnicodeReader, reference: Utf8)
    requires IsAscii(reference) && ReferenceText(unicode, reference).Some?
    ensures ScanReference(reference).Some? && IsScanned(ScanReference(reference).value)
    ensures ReferenceText(unicode, reference).value == Normalised(ScanReference(reference).value)
    ensures |ReferenceText(unicode, reference).value| == 9 && AllDigits(ReferenceText(unicode, reference).value)
  {
    ScannedReference(reference);
    NormalisedFacts(ScanReference(reference).value);
  }

  lemma NormalisedReadsBack(r: PartReference)
    requires IsScanned(r)
    ensures |Normalised(r)| == 9
    ensures IsNumeral(Normalised(r)[..2], NumberOf(r.family))
    ensures IsNumeral(Normalised(r)[2..6], NumberOf(r.incremental))
    ensures IsNumeral(Normalised(r)[6..], NumberOf(r.size))
  {
    hide PadLeft, NumberOf, Normalised;
    NormalisedFacts(r);
    PadLeftFacts(r.family, 2);
    PadLeftFacts(r.incremental, 4);
    PadLeftFacts(r.size, 3);
  }

  /** The archive takes an identifier made of an ASCII reference apart at fixed places, and finds the
      three numbers of the reference, the batch, the line, the year, the day and the serial. */
  lemma IdentifierDecomposes(unicode: UnicodeReader, c: Creation, m: Split)
    requires c.Identifier(unicode).Ok? && IsAscii(c.reference) && IsSplit(c.reference, m)
    ensures AllDigits(m.captured.family) && AllDigits(m.captured.incremental) && AllDigits(m.captured.size)
    ensures
      var id := c.Identifier(unicode).value;
      && |id| == 23
      && IsNumeral(id[..2], NumberOf(m.captured.family)) && IsNumeral(id[2..6], NumberOf(m.captured.incremental))
      && IsNumeral(id[6..9], NumberOf(m.captured.size)) && id[9..11] == c.batch && id[11..13] == c.line
      && IsNumeral(id[13..15], c.today.year % 100) && IsNumeral(id[15..18], OrdinalDay(c.today))
      && IsNumeral(id[18..], c.serial)
  {
    hide ReferenceText, IsSplit, Suffix, PadLeft, YearAndDay, SerialText, NumberOf, CreatePartIdentifier, Scan,
         Normalised, OrdinalDay, ValidUtf8, IsAscii;
    var id := c.Identifier(unicode).value;
    CreatedLayout(unicode, c);
    AsciiReferenceText(unicode, c.reference);
    ScanIff(c.reference, m);
    NormalisedReadsBack(m.captured);
    SerialTextFacts(c.serial);
    var text, date := Normalised(m.captured), YearAndDay(c.today);
    assert id[..2] == text[..2] && id[2..6] == text[2..6] && id[6..9] == text[6..];
    assert id[13..15] == date[..2] && id[15..18] == date[2..];
  }

  /** Creation succeeds exactly when the reference matches and the serial fits in 5 digits. */
  lemma CreationSucceedsIff(unicode: UnicodeReader, c: Creation)
    ensures c.Identifier(unicode).Ok? <==> c.serial <= 99999 && ReferenceText(unicode, c.reference).Some?
    ensures IsAscii(c.reference) ==>
              (ReferenceText(unicode, c.reference).Some? <==> exists m :: IsSplit(c.reference, m))
  {
    ScanRefusesIff(c.reference);
  }

  lemma SameSuffixIff(a: Creation, b: Creation)
    requires a.serial <= 99999 && b.serial <= 99999
    ensures Suffix(a.batch, a.line, a.today, a.serial) == Suffix(b.batch, b.line, b.today, b.serial) <==>
            && a.batch == b.batch && a.line == b.line
            && a.today.year % 100 == b.today.year % 100 && OrdinalDay(a.today) == OrdinalDay(b.today)
            && a.serial == b.serial
  {
    hide YearAndDay, SerialText;
    SerialTextFacts(a.serial);
    SerialTextFacts(b.serial);
    SameYearAndDayIff(a.today, b.today);
    var sa, sb := Suffix(a.batch, a.line, a.today, a.serial), Suffix(b.batch, b.line, b.today, b.serial);
    assert sa[..2] == a.batch && sa[2..4] == a.line && sa[4..9] == YearAndDay(a.today) &&
           sa[9..] == SerialText(a.serial);
    assert sb[..2] == b.batch && sb[2..4] == b.line && sb[4..9] == YearAndDay(b.today) &&
           sb[9..] == SerialText(b.serial);
  }

  lemma SameLengthTails(a: bytes, b: bytes, s: bytes, t: bytes)
    requires |s| == |t|
    ensures a + s == b + t <==> a == b && s == t
  {
    if a + s == b + t {
      assert |a| == |b|;
      assert (a + s)[..|a|] == a && (b + t)[..|b|] == b;
      assert (a + s)[|a|..] == s && (b + t)[|b|..] == t;
    }
  }

  /** Two created identifiers are equal exactly when they agree on the text of the reference, the
      batch, the line, the last two digits of the year, the day and the serial. */
  lemma SameIdentifierIff(unicode: UnicodeReader, a: Creation, b: Creation)
    requires a.Identifier(unicode).Ok? && b.Identifier(unicode).Ok?
    ensures a.Identifier(unicode) == b.Identifier(unicode) <==>
            && ReferenceText(unicode, a.reference) == ReferenceText(unicode, b.reference)
            && a.batch == b.batch && a.line == b.line
            && a.today.year % 100 == b.today.year % 100
            && OrdinalDay(a.today) == OrdinalDay(b.today)
            && a.serial == b.serial
  {
    hide ReferenceText, Suffix;
    SameSuffixIff(a, b);
    SameLengthTails(ReferenceText(unicode, a.reference).value, ReferenceText(unicode, b.reference).value,
                    Suffix(a.batch, a.line, a.today, a.serial), Suffix(b.batch, b.line, b.today, b.serial));
  }

  /** ASCII references have the same text exactly when their three numbers are equal. */
  lemma SameReferenceTextIff(unicode: UnicodeReader, a: Utf8, b: Utf8)
    requires IsAscii(a) && IsAscii(b)
    requires ReferenceText(unicode, a).Some? && ReferenceText(unicode, b).Some?
    ensures ScanReference(a).Some? && IsScanned(ScanReference(a).value)
    ensures ScanReference(b).Some? && IsScanned(ScanReference(b).value)
    ensures
      var ra, rb := ScanReference(a).value, ScanReference(b).value;
      ReferenceText(unicode, a) == ReferenceText(unicode, b) <==>
      && NumberOf(ra.family) == NumberOf(rb.family)
      && NumberOf(ra.incremental) == NumberOf(rb.incremental)
      && NumberOf(ra.size) == NumberOf(rb.size)
  {
    hide ReferenceText, ScanReference;
    AsciiReferenceText(unicode, a);
    AsciiReferenceText(unicode, b);
    NormalisedIffSameNumbers(ScanReference(a).value, ScanReference(b).value);
  }

  // ---------------------------------------------------------------------------
  // Validation
  // ---------------------------------------------------------------------------

  function ValidatePartIdentifier(id: PartId): Result<(), PartIdentifierError> {
    if !AllDigits(id[..9]) then Err(PartReferenceError(id[..9]))
    else if ParseYearAndDay(id[13..18]).None? then Err(InvalidYearAndDay(id[13..18]))
    else if !AllDigits(id[18..]) then Err(InvalidSerial(id[18..]))
    else Ok(())
  }

  lemma FieldsAreAllowed(id: bytes, reference: bytes, batch: Code2, line: Code2, yearAndDay: bytes, serial: bytes)
    requires HasFields(id, reference, batch, line, yearAndDay, serial)
    requires AllDigits(reference) && AllDigits(yearAndDay) && AllDigits(serial)
    ensures AllDigitsOrUpper(id)
  {
    forall i | 0 <= i < |id| ensures IsDigitOrUpper(id[i]) {
      if i < 9 {
        assert id[i] == reference[i];
      } else if i < 11 {
        assert id[i] == batch[i - 9];
      } else if i < 13 {
        assert id[i] == line[i - 11];
      } else if i < 18 {
        assert id[i] == yearAndDay[i - 13];
      } else {
        assert id[i] == serial[i - 18];
      }
    }
  }

  /** A created identifier is 23 digits or uppercase letters and passes validation, exactly when
      the text of its reference is nine digits. */
  lemma CreatedIsValidIff(unicode: UnicodeReader, c: Creation)
    requires c.Identifier(unicode).Ok?
    ensures ReferenceText(unicode, c.reference).Some?
    ensures
      var id := c.Identifier(unicode).value;
      var text := ReferenceText(unicode, c.reference).value;
      TryFrom(id, 23) == Ok(id) && ValidatePartIdentifier(id) == Ok(()) <==> |text| == 9 && AllDigits(text)
  {
    hide ReferenceText, ParseYearAndDay;
    var id := c.Identifier(unicode).value;
    var text := ReferenceText(unicode, c.reference).value;
    CreatedLayout(unicode, c);
    if |text| == 9 && AllDigits(text) {
      SerialTextFacts(c.serial);
      FieldsAreAllowed(id, text, c.batch, c.line, YearAndDay(c.today), SerialText(c.serial));
      YearAndDayParses(c.today);
    }
  }

  /** So is every identifier created from an ASCII reference. */
  lemma CreatedIsValid(unicode: UnicodeReader, c: Creation)
    requires c.Identifier(unicode).Ok? && IsAscii(c.reference)
    ensures TryFrom(c.Identifier(unicode).value, 23) == Ok(c.Identifier(unicode).value)
    ensures ValidatePartIdentifier(c.Identifier(unicode).value) == Ok(())
  {
    hide ReferenceText, ValidatePartIdentifier, TryFrom;
    CreatedIsValidIff(unicode, c);
    AsciiReferenceText(unicode, c.reference);
  }

  /** A validated identifier names a real date when its year is read as 2000 + yy,
      which is how the archive tables read it. */
  lemma ValidatedNamesArchiveDate(id: PartId) returns (d: Date)
    requires ValidatePartIdentifier(id).Ok?
    ensures AllDigits(id[..9]) && AllDigits(id[13..18]) && AllDigits(id[18..])
    ensures AllDigits(id[13..15]) && AllDigits(id[15..18])
    ensures d.year == 2000 + NumberOf(id[13..15]) && OrdinalDay(d) == NumberOf(id[15..18])
  {
    var s := id[13..18];
    assert s[..2] == id[13..15] && s[2..] == id[15..18];
    TwoDigits(s[..2]);
    var yy, ordinal := NumberOf(s[..2]), NumberOf(s[2..]);
    ArchiveReadingHasTheSameDays(yy);
    d := DateOfOrdinal(2000 + yy, ordinal);
  }

  /** Conversely, digits in the three numeric fields and a date the archive can read
      are all that validation asks for. */
  lemma ArchiveDateIsValidated(id: PartId, d: Date)
    requires AllDigits(id[..9]) && AllDigits(id[13..18]) && AllDigits(id[18..])
    requires AllDigits(id[13..15]) && AllDigits(id[15..18])
    requires d.year == 2000 + NumberOf(id[13..15]) && OrdinalDay(d) == NumberOf(id[15..18])
    ensures ValidatePartIdentifier(id) == Ok(())
  {
    var s := id[13..18];
    assert s[..2] == id[13..15] && s[2..] == id[15..18];
    TwoDigits(s[..2]);
    ArchiveReadingHasTheSameDays(NumberOf(s[..2]));
    OrdinalDayRange(d);
  }
}
