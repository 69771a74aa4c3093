/** Part sheets: their cache encoding, and the rows they are archived as. */
module PartSheets {
  import opened Wrappers
  import opened Bytes
  import opened AsciiText
  import opened Calendar
  import opened Variants
  import opened BinaryEncoding
  import Json

  /** A variable of a part sheet: its numeric node identifier, browse name and value. */
  datatype Item = Item(id: u32, name: Utf8, value: Variant)

  /** What the cache keeps of an item. */
  type CachedItem = (u32, Variant)

  const MAX_ITEMS: nat := 0xFFFF

  function CachedItems(sheet: seq<Item>): (r: seq<CachedItem>)
    ensures |r| == |sheet|
    ensures forall i :: 0 <= i < |sheet| ==> r[i] == (sheet[i].id, sheet[i].value)
  {
    seq(|sheet|, i requires 0 <= i < |sheet| => (sheet[i].id, sheet[i].value))
  }

  predicate Storable(sheet: seq<Item>) {
    forall i :: 0 <= i < |sheet| ==> Supported(sheet[i].value) && Representable(sheet[i].value)
  }

  // ---------------------------------------------------------------------------
  // Cache encoding
  // ---------------------------------------------------------------------------

  function EncodeItem(item: Item): bytes {
    LittleEndian(item.id, 4) + EncodeVariant(item.value)
  }

  function EncodeItems(sheet: seq<Item>): bytes {
    if sheet == [] then [] else EncodeItem(sheet[0]) + EncodeItems(sheet[1..])
  }

  /** The cached form of a sheet, or its number of items when that does not fit in 16 bits. */
  function EncodeForCache(sheet: seq<Item>): Result<bytes, nat> {
    if |sheet| > MAX_ITEMS then Err(|sheet|) else Ok(LittleEndian(|sheet|, 2) + EncodeItems(sheet))
  }

  function DecodeItem(buf: bytes): (r: Decoded<CachedItem>)
    ensures r.Ok? ==> 0 <= r.value.0.0 < 0x1_0000_0000
  {
    Powers();
    var (id, rest) :- TakeInteger(buf, 4);
    var (value, rest) :- DecodeVariant(rest);
    Ok(((id, value), rest))
  }

  function DecodeItems(count: nat, buf: bytes): Decoded<seq<CachedItem>> {
    if count == 0 then Ok(([], buf))
    else
      var (item, rest) :- DecodeItem(buf);
      var (items, rest) :- DecodeItems(count - 1, rest);
      Ok(([item] + items, rest))
  }

  /** The items of a cached sheet; bytes after the last one are ignored. */
  function DecodeCached(buf: bytes): Result<seq<CachedItem>, DecodeError> {
    var (count, rest) :- TakeInteger(buf, 2);
    var (items, _) :- DecodeItems(count, rest);
    Ok(items)
  }

  lemma ItemRoundTrip(item: Item, tail: bytes)
    requires Supported(item.value) && Representable(item.value)
    ensures DecodeItem(EncodeItem(item) + tail) == Ok(((item.id, item.value), tail))
  {
    Powers();
    Associative(LittleEndian(item.id, 4), EncodeVariant(item.value), tail);
    TakeIntegerRoundTrip(item.id, 4, EncodeVariant(item.value) + tail);
    VariantRoundTrip(item.value, tail);
  }

  lemma {:induction false} ItemsRoundTrip(sheet: seq<Item>, tail: bytes)
    requires Storable(sheet)
    ensures DecodeItems(|sheet|, EncodeItems(sheet) + tail) == Ok((CachedItems(sheet), tail))
  {
    hide DecodeItem, EncodeItem;
    if sheet == [] {
      assert EncodeItems(sheet) + tail == tail;
    } else {
      Associative(EncodeItem(sheet[0]), EncodeItems(sheet[1..]), tail);
      ItemRoundTrip(sheet[0], EncodeItems(sheet[1..]) + tail);
      ItemsRoundTrip(sheet[1..], tail);
      assert CachedItems(sheet) == [(sheet[0].id, sheet[0].value)] + CachedItems(sheet[1..]);
    }
  }

  lemma CountRoundTrip(count: nat, tail: bytes)
    requires count <= MAX_ITEMS
    ensures TakeInteger(LittleEndian(count, 2) + tail, 2) == Ok((count, tail))
  {
    Powers();
    TakeIntegerRoundTrip(count, 2, tail);
  }

  /** Decoding an encoded sheet gives back its identifiers and values in order, whatever
      bytes come after it; a sheet has an encoding exactly when it has at most 65535 items. */
  lemma CacheRoundTrip(sheet: seq<Item>, tail: bytes)
    requires Storable(sheet)
    ensures EncodeForCache(sheet).Ok? <==> |sheet| <= 65535
    ensures EncodeForCache(sheet).Ok? ==> DecodeCached(EncodeForCache(sheet).value + tail) == Ok(CachedItems(sheet))
  {
    if |sheet| <= MAX_ITEMS {
      Associative(LittleEndian(|sheet|, 2), EncodeItems(sheet), tail);
      CountRoundTrip(|sheet|, EncodeItems(sheet) + tail);
      ItemsRoundTrip(sheet, tail);
    }
  }

  lemma ItemExtends(buf: bytes, tail: bytes)
    requires DecodeItem(buf).Ok?
    ensures DecodeItem(buf + tail) == Ok((DecodeItem(buf).value.0, DecodeItem(buf).value.1 + tail))
  {
    TakeExtends(buf, 4, tail);
    VariantExtends(TakeInteger(buf, 4).value.1, tail);
  }

  lemma {:induction false} ItemsExtend(count: nat, buf: bytes, tail: bytes)
    requires DecodeItems(count, buf).Ok?
    ensures DecodeItems(count, buf + tail) ==
            Ok((DecodeItems(count, buf).value.0, DecodeItems(count, buf).value.1 + tail))
  {
    if count > 0 {
      ItemExtends(buf, tail);
      ItemsExtend(count - 1, DecodeItem(buf).value.1, tail);
    }
  }

  /** No strict prefix of an encoded sheet can be decoded: a torn value is never mistaken for a sheet. */
  lemma StrictPrefixIsRejected(sheet: seq<Item>, length: nat)
    requires Storable(sheet) && EncodeForCache(sheet).Ok?
    requires length < |EncodeForCache(sheet).value|
    ensures DecodeCached(EncodeForCache(sheet).value[..length]).Err?
  {
    var whole := EncodeForCache(sheet).value;
    var prefix, missing := whole[..length], whole[length..];
    assert prefix + missing == whole;
    if TakeInteger(prefix, 2).Ok? {
      var (count, rest) := TakeInteger(prefix, 2).value;
      TakeExtends(prefix, 2, missing);
      CountRoundTrip(|sheet|, EncodeItems(sheet));
      assert count == |sheet| && rest + missing == EncodeItems(sheet) + [];
      ItemsRoundTrip(sheet, []);
      if DecodeItems(count, rest).Ok? {
        ItemsExtend(count, rest, missing);
        assert false;
      }
    }
  }

  // ---------------------------------------------------------------------------
  // Encoded size
  // ---------------------------------------------------------------------------

  /** Sum of the encoded sizes of the items. */
  function ItemsSize(sheet: seq<Item>): nat {
    if sheet == [] then 0 else 4 + VariantSize(sheet[0].value) + ItemsSize(sheet[1..])
  }

  lemma {:induction false} ItemsEncodedSize(sheet: seq<Item>)
    ensures |EncodeItems(sheet)| == ItemsSize(sheet)
  {
    if sheet != [] {
      EncodeVariantSize(sheet[0].value);
      ItemsEncodedSize(sheet[1..]);
    }
  }

  /** The size reserved before encoding is the size of the encoding. */
  lemma EncodedSize(sheet: seq<Item>)
    requires EncodeForCache(sheet).Ok?
    ensures |EncodeForCache(sheet).value| == 2 + ItemsSize(sheet)
  {
    ItemsEncodedSize(sheet);
  }

  lemma {:induction false} EncodeItemsConcat(a: seq<Item>, b: seq<Item>)
    ensures EncodeItems(a + b) == EncodeItems(a) + EncodeItems(b)
  {
    if a == [] {
      assert a + b == b;
    } else {
      assert (a + b)[1..] == a[1..] + b;
      EncodeItemsConcat(a[1..], b);
    }
  }

  lemma {:induction false} ItemsSizeConcat(a: seq<Item>, b: seq<Item>)
    ensures ItemsSize(a + b) == ItemsSize(a) + ItemsSize(b)
  {
    if a == [] {
      assert a + b == b;
    } else {
      assert (a + b)[1..] == a[1..] + b;
      ItemsSizeConcat(a[1..], b);
    }
  }

  lemma EncodeItemsSnoc(sheet: seq<Item>, i: nat)
    requires i < |sheet|
    ensures EncodeItems(sheet[..i + 1]) ==
            EncodeItems(sheet[..i]) + LittleEndian(sheet[i].id, 4) + EncodeVariant(sheet[i].value)
    ensures ItemsSize(sheet[..i + 1]) == ItemsSize(sheet[..i]) + 4 + VariantSize(sheet[i].value)
  {
    assert sheet[..i + 1] == sheet[..i] + [sheet[i]];
    EncodeItemsConcat(sheet[..i], [sheet[i]]);
    ItemsSizeConcat(sheet[..i], [sheet[i]]);
    assert EncodeItems([sheet[i]]) == EncodeItem(sheet[i]);
    Associative(EncodeItems(sheet[..i]), LittleEndian(sheet[i].id, 4), EncodeVariant(sheet[i].value));
  }

  /** `encode_part_sheet_for_cache`: sums the sizes to reserve the buffer, then fills it. */
  method EncodePartSheetForCache(sheet: seq<Item>) returns (r: Result<bytes, nat>, capacity: nat)
    ensures r == EncodeForCache(sheet)
    ensures r.Ok? ==> capacity == |r.value|
  {
    if |sheet| > MAX_ITEMS {
      return Err(|sheet|), 0;
    }
    var size := 0;
    for i := 0 to |sheet|
      invariant size == ItemsSize(sheet[..i])
    {
      EncodeItemsSnoc(sheet, i);
      size := size + 4 + VariantSize(sheet[i].value);
    }
    assert sheet[..|sheet|] == sheet;
    EncodedSize(sheet);
    capacity := 2 + size;
    var items: bytes := [];
    for i := 0 to |sheet|
      invariant items == EncodeItems(sheet[..i])
    {
      EncodeItemsSnoc(sheet, i);
      items := items + LittleEndian(sheet[i].id, 4);
      items := items + EncodeVariant(sheet[i].value);
    }
    r := Ok(LittleEndian(|sheet|, 2) + items);
  }

  /** `decode_cached_part_sheet`: advances through the buffer, stopping at the first error. */
  method DecodeCachedPartSheet(whole: bytes) returns (r: Result<seq<CachedItem>, DecodeError>)
    ensures r == DecodeCached(whole)
  {
    var header := TakeInteger(whole, 2);
    if header.Err? {
      return Err(header.error);
    }
    ghost var items := DecodeItems(header.value.0, header.value.1);
    assert items.Ok? ==> [] + items.value.0 == items.value.0;
    r := DecodeItemLoop(header.value.0, header.value.1);
  }

  /** What a loop that has already read some items will end with. */
  ghost function After(out: seq<CachedItem>, rest: Decoded<seq<CachedItem>>): Result<seq<CachedItem>, DecodeError> {
    if rest.Err? then Err(rest.error) else Ok(out + rest.value.0)
  }

  lemma AfterOne(out: seq<CachedItem>, count: nat, buf: bytes)
    requires count > 0
    ensures After(out, DecodeItems(count, buf)) ==
            if DecodeItem(buf).Err? then Err(DecodeItem(buf).error)
            else After(out + [DecodeItem(buf).value.0], DecodeItems(count - 1, DecodeItem(buf).value.1))
  {
    if DecodeItem(buf).Ok? {
      var (item, rest) := DecodeItem(buf).value;
      var next := DecodeItems(count - 1, rest);
      if next.Ok? {
        assert out + ([item] + next.value.0) == out + [item] + next.value.0;
      }
    }
  }

  method DecodeItemLoop(count: nat, whole: bytes) returns (r: Result<seq<CachedItem>, DecodeError>)
    ensures r == After([], DecodeItems(count, whole))
  {
    hide DecodeItem;
    var buf := whole;
    var out: seq<CachedItem> := [];
    for i := 0 to count
      invariant After([], DecodeItems(count, whole)) == After(out, DecodeItems(count - i, buf))
    {
      AfterOne(out, count - i, buf);
      var decoded := DecodeItem(buf);
      if decoded.Err? {
        return Err(decoded.error);
      }
      out, buf := out + [decoded.value.0], decoded.value.1;
    }
    assert out + [] == out;
    return Ok(out);
  }

  // ---------------------------------------------------------------------------
  // Archive rows
  // ---------------------------------------------------------------------------

  /** An instant, to the millisecond. */
  datatype Timestamp = Timestamp(date: Date, hour: nat, minute: nat, second: nat, milli: nat) {
    predicate Valid() {
      hour < 24 && minute < 60 && second < 60 && milli < 1000
    }
  }

  type Instant = t: Timestamp | t.Valid() witness Timestamp(CivilDate(2000, 1, 1), 0, 0, 0, 0)

  const COLON: byte := ':' as int

  /** `2026-12-09` */
  function DateText(d: Date): (s: Line)
    ensures |s| == 10
  {
    assert Power10(2) == 100 && Power10(4) == 10000;
    Padded(d.year, 4) + Ascii("-") + Padded(d.month, 2) + Ascii("-") + Padded(d.day, 2)
  }

  /** `04:30:54.123` */
  function TimeText(t: Instant): (s: Line)
    ensures |s| == 12
  {
    assert Power10(2) == 100 && Power10(3) == 1000;
    Padded(t.hour, 2) + [COLON] + Padded(t.minute, 2) + [COLON] + Padded(t.second, 2) + Ascii(".") + Padded(t.milli, 3)
  }

  /** `2026-12-09 04:30:54.123` */
  function TimestampText(t: Instant): (s: Line)
    ensures |s| == 23
  {
    DateText(t.date) + Ascii(" ") + TimeText(t)
  }

  lemma DateReadsBack(d: Date)
    ensures
      var s := DateText(d);
      && IsNumeral(s[..4], d.year) && IsNumeral(s[5..7], d.month) && IsNumeral(s[8..], d.day)
      && s[4] == s[7] == '-' as int
  {
    hide PadLeft, Decimal, NumberOf;
    assert Power10(2) == 100 && Power10(4) == 10000;
    var s := DateText(d);
    assert s[..4] == Padded(d.year, 4) && s[5..7] == Padded(d.month, 2) && s[8..] == Padded(d.day, 2);
  }

  lemma TimeReadsBack(t: Instant)
    ensures
      var s := TimeText(t);
      && IsNumeral(s[..2], t.hour) && IsNumeral(s[3..5], t.minute) && IsNumeral(s[6..8], t.second)
      && IsNumeral(s[9..], t.milli)
      && s[2] == s[5] == ':' as int && s[8] == '.' as int
  {
    hide PadLeft, Decimal, NumberOf;
    assert Power10(2) == 100 && Power10(3) == 1000;
    var s := TimeText(t);
    assert s[..2] == Padded(t.hour, 2) && s[3..5] == Padded(t.minute, 2);
    assert s[6..8] == Padded(t.second, 2) && s[9..] == Padded(t.milli, 3);
  }

  /** A reader of an instant finds its date and time at their places. */
  lemma TimestampReadsBack(t: Instant)
    ensures
      var s := TimestampText(t);
      && IsNumeral(s[..4], t.date.year) && IsNumeral(s[5..7], t.date.month) && IsNumeral(s[8..10], t.date.day)
      && IsNumeral(s[11..13], t.hour) && IsNumeral(s[14..16], t.minute) && IsNumeral(s[17..19], t.second)
      && IsNumeral(s[20..], t.milli)
      && s[4] == s[7] == '-' as int && s[10] == ' ' as int && s[13] == s[16] == ':' as int && s[19] == '.' as int
  {
    hide DateText, TimeText, IsNumeral;
    DateReadsBack(t.date);
    TimeReadsBack(t);
    var date, time, s := DateText(t.date), TimeText(t), TimestampText(t);
    assert s[..4] == date[..4] && s[5..7] == date[5..7] && s[8..10] == date[8..];
    assert s[11..13] == time[..2] && s[14..16] == time[3..5] && s[17..19] == time[6..8] && s[20..] == time[9..];
  }

  /** The variables of a sheet by browse name, as the members of a JSON object. */
  function SheetMembers(fmt: Json.FloatFormat, sheet: seq<Item>): Result<Line, Json.JsonError> {
    if sheet == [] then Ok([])
    else
      var value :- Json.SerializeVariant(fmt, sheet[0].value);
      var members :- SheetMembers(fmt, sheet[1..]);
      var member := Json.JsonString(sheet[0].name) + [COLON] + value;
      Ok(if |sheet| == 1 then member else member + [Json.COMMA] + members)
  }

  const SAVED_AT: Line := Ascii("{\"saved_at\":")
  const MACHINE_ID: Line := Ascii(",\"machine_id\":")
  const PART_ID: Line := Ascii(",\"part_id\":")
  const DATA: Line := Ascii(",\"data\":{")
  const END: Line := Ascii("}}")

  function Join(a: Line, b: Line): Line {
    a + b
  }

  /** A key, its string value, and the rest of the row. */
  function Member(key: Line, value: bytes, rest: Line): Line {
    Join(key, Join(Json.JsonString(value), rest))
  }

  /** The row of a sheet, on one line, or the reason why a value cannot be archived. */
  function EncodeForArchive(fmt: Json.FloatFormat, savedAt: Instant, machine: Utf8, part: PartId, sheet: seq<Item>)
    : Result<Line, Json.JsonError>
  {
    var members :- SheetMembers(fmt, sheet);
    Ok(Member(SAVED_AT, TimestampText(savedAt), Member(MACHINE_ID, machine, Member(PART_ID, part,
       Join(DATA, Join(members, END))))))
  }

  /** A sheet has a row exactly when all its values are supported. */
  lemma {:induction false} ArchivedIffSupported(fmt: Json.FloatFormat, savedAt: Instant, machine: Utf8, part: PartId,
                                                sheet: seq<Item>)
    ensures EncodeForArchive(fmt, savedAt, machine, part, sheet).Ok? <==>
            forall i :: 0 <= i < |sheet| ==> Supported(sheet[i].value)
  {
    if sheet != [] {
      Json.SerializesIffSupported(fmt, sheet[0].value);
      ArchivedIffSupported(fmt, savedAt, machine, part, sheet[1..]);
      assert forall i :: 1 <= i < |sheet| ==> sheet[i] == sheet[1..][i - 1];
    }
  }

  // ---------------------------------------------------------------------------
  // Reading rows back
  // ---------------------------------------------------------------------------

  /** A row as a JSON reader sees it. */
  datatype Row = Row(savedAt: bytes, machine: bytes, part: bytes, data: seq<(bytes, Json.JsonValue)>)

  /** A string member at the front of a text: its value, and the rest of the text. */
  function ReadMember(key: Line, t: bytes): Option<(bytes, bytes)> {
    if !(key + ['\"' as int] <= t) then None else Json.ReadString(t[|key| + 1..])
  }

  /** A name and a value at the front of a text. */
  function ReadEntry(t: bytes): (r: Option<((bytes, Json.JsonValue), bytes)>)
    ensures r.Some? ==> |r.value.1| < |t|
  {
    if t == [] || t[0] != '\"' as int then None
    else
      match Json.ReadString(t[1..])
      case None => None
      case Some((name, rest)) =>
        if rest == [] || rest[0] != ':' as int then None
        else
          match Json.ReadValue(rest[1..])
          case None => None
          case Some((value, end)) => Some(((name, value), end))
  }

  /** Names and values separated by commas, up to a closing brace. */
  function ReadEntries(t: bytes): Option<(seq<(bytes, Json.JsonValue)>, bytes)>
    decreases |t|
  {
    match ReadEntry(t)
    case None => None
    case Some((entry, rest)) =>
      if rest == [] then None
      else if rest[0] == '}' as int then Some(([entry], rest[1..]))
      else if rest[0] != ',' as int then None
      else
        match ReadEntries(rest[1..])
        case None => None
        case Some((entries, end)) => Some(([entry] + entries, end))
  }

  /** The data object that ends a row. */
  function ReadData(t: bytes): Option<seq<(bytes, Json.JsonValue)>> {
    var key := Ascii(",\"data\":{");
    if !(key <= t) then None
    else if t[|key|..] == Ascii("}}") then Some([])
    else
      match ReadEntries(t[|key|..])
      case None => None
      case Some((entries, rest)) => if rest == ['}' as int] then Some(entries) else None
  }

  /** A whole row. */
  function ReadRow(t: bytes): Option<Row> {
    match ReadMember(Ascii("{\"saved_at\":"), t)
    case None => None
    case Some((savedAt, afterTime)) =>
      match ReadMember(Ascii(",\"machine_id\":"), afterTime)
      case None => None
      case Some((machine, afterMachine)) =>
        match ReadMember(Ascii(",\"part_id\":"), afterMachine)
        case None => None
        case Some((part, afterPart)) =>
          match ReadData(afterPart)
          case None => None
          case Some(data) => Some(Row(savedAt, machine, part, data))
  }

  /** What the variables of a sheet mean to a reader, by browse name, in order. */
  function Entries(fmt: Json.FloatFormat, sheet: seq<Item>): seq<(bytes, Json.JsonValue)> {
    if sheet == [] then []
    else [(sheet[0].name, Json.Meaning(fmt, sheet[0].value))] + Entries(fmt, sheet[1..])
  }

  /** One entry for each variable, at its place. */
  lemma {:induction false} EntriesAreItems(fmt: Json.FloatFormat, sheet: seq<Item>)
    ensures |Entries(fmt, sheet)| == |sheet|
    ensures forall i :: 0 <= i < |sheet| ==>
              Entries(fmt, sheet)[i] == (sheet[i].name, Json.Meaning(fmt, sheet[i].value))
  {
    if sheet != [] {
      EntriesAreItems(fmt, sheet[1..]);
      assert forall i :: 1 <= i < |sheet| ==> sheet[i] == sheet[1..][i - 1];
    }
  }

  lemma MemberRoundTrip(key: Line, value: bytes, rest: Line)
    ensures ReadMember(key, Member(key, value, rest)) == Some((value, rest))
  {
    var text := Json.Escape(value) + [Json.QUOTE] + rest;
    assert Member(key, value, rest) == key + [Json.QUOTE] + text;
    assert Member(key, value, rest)[|key| + 1..] == text;
    Json.StringRoundTrip(value, rest);
  }

  lemma EntryRoundTrip(fmt: Json.FloatFormat, item: Item, rest: bytes)
    requires Supported(item.value) && Json.EndsTokens(rest)
    ensures Json.SerializeVariant(fmt, item.value).Ok?
    ensures ReadEntry(Json.JsonString(item.name) + [COLON] + Json.SerializeVariant(fmt, item.value).value + rest)
            == Some(((item.name, Json.Meaning(fmt, item.value)), rest))
  {
    hide Json.ReadValue, Json.ReadString, Json.SerializeVariant, Json.Meaning, Json.EndsTokens;
    Json.ValueRoundTrip(fmt, item.value, rest);
    var value := Json.SerializeVariant(fmt, item.value).value;
    var t := Json.JsonString(item.name) + [COLON] + value + rest;
    var afterName := [COLON] + (value + rest);
    assert t[1..] == Json.Escape(item.name) + [Json.QUOTE] + afterName;
    Json.StringRoundTrip(item.name, afterName);
    assert afterName[1..] == value + rest;
  }

  lemma {:induction false} EntriesRoundTrip(fmt: Json.FloatFormat, sheet: seq<Item>, rest: bytes)
    requires sheet != [] && SheetMembers(fmt, sheet).Ok?
    ensures ReadEntries(SheetMembers(fmt, sheet).value + (['}' as int] + rest)) == Some((Entries(fmt, sheet), rest))
  {
    hide ReadEntry, Json.SerializeVariant, Json.Meaning;
    var members := SheetMembers(fmt, sheet).value;
    Json.SerializesIffSupported(fmt, sheet[0].value);
    var entry := Json.JsonString(sheet[0].name) + [COLON] + Json.SerializeVariant(fmt, sheet[0].value).value;
    if |sheet| == 1 {
      EntryRoundTrip(fmt, sheet[0], ['}' as int] + rest);
      assert (['}' as int] + rest)[1..] == rest;
      assert sheet[1..] == [];
      assert Entries(fmt, sheet) == [(sheet[0].name, Json.Meaning(fmt, sheet[0].value))];
    } else {
      var next := [Json.COMMA] + (SheetMembers(fmt, sheet[1..]).value + (['}' as int] + rest));
      assert members + (['}' as int] + rest) == entry + next;
      EntryRoundTrip(fmt, sheet[0], next);
      assert next[1..] == SheetMembers(fmt, sheet[1..]).value + (['}' as int] + rest);
      EntriesRoundTrip(fmt, sheet[1..], rest);
    }
  }

  lemma DataRoundTrip(fmt: Json.FloatFormat, sheet: seq<Item>)
    requires SheetMembers(fmt, sheet).Ok?
    ensures ReadData(Join(DATA, Join(SheetMembers(fmt, sheet).value, END))) == Some(Entries(fmt, sheet))
  {
    hide ReadEntries, Json.JsonString;
    var members := SheetMembers(fmt, sheet).value;
    var t := Join(DATA, Join(members, END));
    assert t[|DATA|..] == members + END;
    assert END == ['}' as int] + ['}' as int];
    if sheet != [] {
      MembersAreNotEmpty(fmt, sheet);
      EntriesRoundTrip(fmt, sheet, ['}' as int]);
    }
  }

  lemma MembersAreNotEmpty(fmt: Json.FloatFormat, sheet: seq<Item>)
    requires sheet != [] && SheetMembers(fmt, sheet).Ok?
    ensures SheetMembers(fmt, sheet).value != []
  {
  }

  /** A reader of a row finds when, by which machine and for which part it was saved, and the
      variables of the sheet: every name with what its value means, in order. */
  lemma RowRoundTrip(fmt: Json.FloatFormat, savedAt: Instant, machine: Utf8, part: PartId, sheet: seq<Item>)
    requires EncodeForArchive(fmt, savedAt, machine, part, sheet).Ok?
    ensures ReadRow(EncodeForArchive(fmt, savedAt, machine, part, sheet).value)
            == Some(Row(TimestampText(savedAt), machine, part, Entries(fmt, sheet)))
  {
    hide ReadMember, ReadData, TimestampText, Join, Member, SheetMembers, Entries;
    var data := Join(DATA, Join(SheetMembers(fmt, sheet).value, END));
    MemberRoundTrip(PART_ID, part, data);
    MemberRoundTrip(MACHINE_ID, machine, Member(PART_ID, part, data));
    MemberRoundTrip(SAVED_AT, TimestampText(savedAt), Member(MACHINE_ID, machine, Member(PART_ID, part, data)));
    DataRoundTrip(fmt, sheet);
  }
}
