/** The save request: reading the sheets of a machine and handing them to the cache. */
module SaveRequest {
  import opened Wrappers
  import opened Bytes
  import opened AsciiText
  import opened Variants
  import opened PartSheets
  import opened PartIdentifier
  import opened Cache
  import Json

  // ---------------------------------------------------------------------------
  // Values read from a machine
  // ---------------------------------------------------------------------------

  datatype ValueError = BadStatus | MissingValue | InvalidType | NullString | Ascii(cause: AsciiTextError)

  /** A value as a server returns it. */
  datatype DataValue = DataValue(isGood: bool, value: Option<Variant>)

  function IntoVariant(d: DataValue): Result<Variant, ValueError> {
    if !d.isGood then Err(BadStatus)
    else
      match d.value
      case None => Err(MissingValue)
      case Some(v) => Ok(v)
  }

  /** Characters of fixed number out of a string value. */
  function IntoAscii(v: Variant, length: nat): Result<bytes, ValueError> {
    match v
    case UaString(None) => Err(NullString)
    case UaString(Some(s)) => TryFrom(s, length).MapErr(e => Ascii(e))
    case _ => Err(InvalidType)
  }

  // ---------------------------------------------------------------------------
  // Nodes discovered at initialisation
  // ---------------------------------------------------------------------------

  datatype Node = Node(id: u32, name: Utf8)

  datatype SheetsContext = SheetsContext(general: seq<Node>, partIdIndex: nat, operation: seq<Node>)

  /** Index of the first node with an identifier. */
  function Position(nodes: seq<Node>, id: u32): (r: Option<nat>)
    ensures r.None? <==> forall i :: 0 <= i < |nodes| ==> nodes[i].id != id
    ensures r.Some? ==> r.value < |nodes| && nodes[r.value].id == id
    ensures r.Some? ==> forall i :: 0 <= i < r.value ==> nodes[i].id != id
  {
    if nodes == [] then None
    else if nodes[0].id == id then Some(0)
    else
      match Position(nodes[1..], id)
      case None =>
        assert forall i :: 1 <= i < |nodes| ==> nodes[i] == nodes[1..][i - 1];
        None
      case Some(i) =>
        assert forall j :: 1 <= j < i + 1 ==> nodes[j] == nodes[1..][j - 1];
        Some(i + 1)
  }

  /** The context of a handler; there is none when the part identifier node is not found. */
  function Initialize(general: seq<Node>, operation: seq<Node>, partIdNid: u32): (r: Option<SheetsContext>)
    ensures r.None? <==> forall i :: 0 <= i < |general| ==> general[i].id != partIdNid
    ensures r.Some? ==> r.value.general == general && r.value.operation == operation
    ensures r.Some? ==> r.value.partIdIndex < |general| && general[r.value.partIdIndex].id == partIdNid
    ensures r.Some? ==> forall i :: 0 <= i < r.value.partIdIndex ==> general[i].id != partIdNid
  {
    match Position(general, partIdNid)
    case None => None
    case Some(i) => Some(SheetsContext(general, i, operation))
  }

  // ---------------------------------------------------------------------------
  // Slicing the read values
  // ---------------------------------------------------------------------------

  datatype HandleSaveError =
    | Enqueuing(refusal: CheckError)
    | ReadPartSheets
    | ReadLength(expected: nat, got: nat)
    | PartSheetValue(badValue: ValueError, node: Utf8)
    | PartIdValue(badPartId: ValueError)
    | InvalidPartId(reason: PartIdentifierError, part: PartId)
    | CacheSave(failure: SaveError)
    | CacheSaveTask

  /** Nodes with their values; the first bad value decides the error. */
  function ZipItems(nodes: seq<Node>, values: seq<DataValue>): Result<seq<Item>, HandleSaveError>
    requires |nodes| == |values|
  {
    if nodes == [] then Ok([])
    else
      var value :- IntoVariant(values[0]).MapErr(e => PartSheetValue(e, nodes[0].name));
      var rest :- ZipItems(nodes[1..], values[1..]);
      Ok([Item(nodes[0].id, nodes[0].name, value)] + rest)
  }

  predicate AllGood(values: seq<DataValue>) {
    forall i :: 0 <= i < |values| ==> IntoVariant(values[i]).Ok?
  }

  /** The items of nodes whose values are all good. */
  function ItemsOf(nodes: seq<Node>, values: seq<DataValue>): seq<Item>
    requires |nodes| == |values| && AllGood(values)
  {
    seq(|nodes|, i requires 0 <= i < |nodes| => Item(nodes[i].id, nodes[i].name, IntoVariant(values[i]).value))
  }

  lemma {:induction false} ZipItemsIff(nodes: seq<Node>, values: seq<DataValue>)
    requires |nodes| == |values|
    ensures ZipItems(nodes, values).Ok? <==> AllGood(values)
    ensures AllGood(values) ==> ZipItems(nodes, values) == Ok(ItemsOf(nodes, values))
  {
    if nodes != [] {
      ZipItemsIff(nodes[1..], values[1..]);
      assert forall i :: 1 <= i < |values| ==> values[i] == values[1..][i - 1];
      if AllGood(values) {
        var head := Item(nodes[0].id, nodes[0].name, IntoVariant(values[0]).value);
        assert ItemsOf(nodes, values) == [head] + ItemsOf(nodes[1..], values[1..]);
      } else if AllGood(values[1..]) {
        assert IntoVariant(values[0]).Err?;
      }
    }
  }

  /** What the values of all the nodes, general ones first, make: the part and its two sheets. */
  function SliceSheets(ctx: SheetsContext, values: seq<DataValue>)
    : Result<(PartId, seq<Item>, seq<Item>), HandleSaveError>
    requires ctx.partIdIndex < |ctx.general|
  {
    var nodes := ctx.general + ctx.operation;
    if |values| != |nodes| then Err(ReadLength(|nodes|, |values|))
    else
      var items :- ZipItems(nodes, values);
      ZipItemsIff(nodes, values);
      var part :- IntoAscii(items[ctx.partIdIndex].value, 23).MapErr(e => PartIdValue(e));
      var _ :- ValidatePartIdentifier(part).MapErr(e => InvalidPartId(e, part));
      Ok((part, items[..|ctx.general|], items[|ctx.general|..]))
  }

  /** A value that names a part. */
  predicate NamesPart(v: Variant, part: PartId) {
    v.UaString? && v.text.Some? && v.text.value == part
  }

  /** The general nodes with the first values, the operation nodes with the rest. */
  ghost predicate AreSheets(ctx: SheetsContext, values: seq<DataValue>, general: seq<Item>, operation: seq<Item>) {
    var n := |ctx.general|;
    && |values| == n + |ctx.operation| && AllGood(values)
    && AllGood(values[..n]) && AllGood(values[n..])
    && general == ItemsOf(ctx.general, values[..n])
    && operation == ItemsOf(ctx.operation, values[n..])
  }

  /** The sheets, and the part named by the configured node, which must be valid. */
  ghost predicate IsSlicing(ctx: SheetsContext, values: seq<DataValue>, part: PartId, general: seq<Item>,
                            operation: seq<Item>)
  {
    && AreSheets(ctx, values, general, operation)
    && ctx.partIdIndex < |general| && NamesPart(general[ctx.partIdIndex].value, part)
    && ValidatePartIdentifier(part).Ok?
  }

  lemma CutItems(ctx: SheetsContext, values: seq<DataValue>)
    requires |values| == |ctx.general| + |ctx.operation| && AllGood(values)
    ensures
      var items := ItemsOf(ctx.general + ctx.operation, values);
      AreSheets(ctx, values, items[..|ctx.general|], items[|ctx.general|..])
  {
  }

  /** Slicing succeeds exactly when there is something to find, and finds it. */
  lemma SlicingIff(ctx: SheetsContext, values: seq<DataValue>, part: PartId, general: seq<Item>, operation: seq<Item>)
    requires ctx.partIdIndex < |ctx.general|
    ensures SliceSheets(ctx, values) == Ok((part, general, operation)) <==>
            IsSlicing(ctx, values, part, general, operation)
  {
    if |values| == |ctx.general| + |ctx.operation| {
      var nodes := ctx.general + ctx.operation;
      ZipItemsIff(nodes, values);
      if AllGood(values) {
        CutItems(ctx, values);
        var items := ItemsOf(nodes, values);
        assert items[..|ctx.general|][ctx.partIdIndex] == items[ctx.partIdIndex];
      }
    }
  }

  lemma {:induction false} BadValuesAreNamed(nodes: seq<Node>, values: seq<DataValue>)
    requires |nodes| == |values|
    ensures ZipItems(nodes, values).Err? ==> ZipItems(nodes, values).error.PartSheetValue?
  {
    if nodes != [] {
      BadValuesAreNamed(nodes[1..], values[1..]);
    }
  }

  /** When slicing fails, the error tells the first thing that is wrong. */
  lemma RefusedSlicing(ctx: SheetsContext, values: seq<DataValue>)
    requires ctx.partIdIndex < |ctx.general| && SliceSheets(ctx, values).Err?
    ensures
      match SliceSheets(ctx, values).error
      case ReadLength(_, _) => |values| != |ctx.general| + |ctx.operation|
      case PartSheetValue(_, _) => |values| == |ctx.general| + |ctx.operation| && !AllGood(values)
      case PartIdValue(_) => NamesNoPart(ctx, values)
      case InvalidPartId(_, _) => NamesNoPart(ctx, values)
      case _ => false
  {
    hide ValidatePartIdentifier;
    var nodes := ctx.general + ctx.operation;
    if |values| == |nodes| {
      ZipItemsIff(nodes, values);
      BadValuesAreNamed(nodes, values);
    }
  }

  /** All values are good, but the one of the part identifier node names no valid part. */
  ghost predicate NamesNoPart(ctx: SheetsContext, values: seq<DataValue>) {
    && |values| == |ctx.general| + |ctx.operation| && AllGood(values) && ctx.partIdIndex < |values|
    && forall part: PartId :: NamesPart(values[ctx.partIdIndex].value.value, part) ==> ValidatePartIdentifier(part).Err?
  }

  /** The slicing as the handler runs it: one list, cut in two at the end. */
  method BuildPartSheets(ctx: SheetsContext, values: seq<DataValue>)
    returns (r: Result<(PartId, seq<Item>, seq<Item>), HandleSaveError>)
    requires ctx.partIdIndex < |ctx.general|
    ensures r == SliceSheets(ctx, values)
  {
    var nodes := ctx.general + ctx.operation;
    if |values| != |nodes| {
      return Err(ReadLength(|nodes|, |values|));
    }
    var partSheets: seq<Item> := [];
    assert Prepend([], ZipItems(nodes, values)) == ZipItems(nodes, values) by {
      assert ZipItems(nodes, values).Ok? ==> [] + ZipItems(nodes, values).value == ZipItems(nodes, values).value;
    }
    assert nodes[0..] == nodes && values[0..] == values;
    for i := 0 to |nodes|
      invariant |partSheets| == i
      invariant ZipItems(nodes, values) == Prepend(partSheets, ZipItems(nodes[i..], values[i..]))
    {
      var value := IntoVariant(values[i]);
      if value.Err? {
        return Err(PartSheetValue(value.error, nodes[i].name));
      }
      PrependOne(partSheets, Item(nodes[i].id, nodes[i].name, value.value), ZipItems(nodes[i + 1..], values[i + 1..]));
      assert nodes[i..][1..] == nodes[i + 1..] && values[i..][1..] == values[i + 1..];
      partSheets := partSheets + [Item(nodes[i].id, nodes[i].name, value.value)];
    }
    assert partSheets + [] == partSheets;
    var part := IntoAscii(partSheets[ctx.partIdIndex].value, 23);
    if part.Err? {
      return Err(PartIdValue(part.error));
    }
    var valid := ValidatePartIdentifier(part.value);
    if valid.Err? {
      return Err(InvalidPartId(valid.error, part.value));
    }
    var operation := partSheets[|ctx.general|..];
    partSheets := partSheets[..|ctx.general|];
    return Ok((part.value, partSheets, operation));
  }

  ghost function Prepend(done: seq<Item>, rest: Result<seq<Item>, HandleSaveError>): Result<seq<Item>, HandleSaveError>
  {
    if rest.Err? then rest else Ok(done + rest.value)
  }

  lemma PrependOne(done: seq<Item>, item: Item, rest: Result<seq<Item>, HandleSaveError>)
    ensures Prepend(done, Prepend([item], rest)) == Prepend(done + [item], rest)
  {
    if rest.Ok? {
      assert done + ([item] + rest.value) == done + [item] + rest.value;
    }
  }

  // ---------------------------------------------------------------------------
  // The request
  // ---------------------------------------------------------------------------

  /** What a request makes of the cache once it is admitted. */
  function SavingValues(store: Store, fmt: Json.FloatFormat, ctx: SheetsContext, machine: Utf8, savedAt: Instant,
                        readValues: Option<seq<DataValue>>)
    : (Result<(), HandleSaveError>, Store)
    requires ctx.partIdIndex < |ctx.general|
  {
    match readValues
    case None => (Err(ReadPartSheets), store)
    case Some(values) =>
      match SliceSheets(ctx, values)
      case Err(e) => (Err(e), store)
      case Ok((part, general, operation)) =>
        match Saved(fmt, store, Save(savedAt, machine, part, general, operation))
        case Err(failure) => (Err(CacheSave(failure)), store)
        case Ok(next) => (Ok(()), next)
  }

  /** What a request makes of the cache, when others change it in some way between its admission
      and its save. */
  function Saving(store: Store, others: Store -> Store, threshold: nat, fmt: Json.FloatFormat, ctx: SheetsContext,
                  machine: Utf8, savedAt: Instant, readValues: Option<seq<DataValue>>)
    : (Result<(), HandleSaveError>, Store)
    requires ctx.partIdIndex < |ctx.general|
  {
    match CheckEnqueuing(store, threshold)
    case Err(refusal) => (Err(Enqueuing(refusal)), store)
    case Ok(_) => SavingValues(others(store), fmt, ctx, machine, savedAt, readValues)
  }

  /** The part of a save request after its admission, given what the machine's server answers to
      the read. */
  method SaveValues(cache: TraceabilityCache, ctx: SheetsContext, machine: Utf8, savedAt: Instant,
                    readValues: Option<seq<DataValue>>)
    returns (r: Result<(), HandleSaveError>)
    requires ctx.partIdIndex < |ctx.general|
    modifies cache`counter, cache`sheets, cache`generalQueue, cache`operationQueue
    ensures (r, cache.State()) == SavingValues(old(cache.State()), cache.floatFormat, ctx, machine, savedAt, readValues)
  {
    hide SliceSheets, Saved;
    if readValues.None? {
      return Err(ReadPartSheets);
    }
    var sliced := BuildPartSheets(ctx, readValues.value);
    if sliced.Err? {
      return Err(sliced.error);
    }
    var (part, general, operation) := sliced.value;
    var saved := cache.SavePartSheets(Save(savedAt, machine, part, general, operation));
    return if saved.Err? then Err(CacheSave(saved.error)) else Ok(());
  }

  /** Handles a save request: checks the backlog, waits for what it reads, slices, saves. */
  method HandleSave(cache: TraceabilityCache, ctx: SheetsContext, machine: Utf8, savedAt: Instant,
                    readValues: Option<seq<DataValue>>, others: Store -> Store)
    returns (r: Result<(), HandleSaveError>)
    requires ctx.partIdIndex < |ctx.general|
    modifies cache
    ensures (r, cache.State()) ==
            Saving(old(cache.State()), others, cache.queuesThreshold, cache.floatFormat, ctx, machine, savedAt,
                   readValues)
  {
    hide CheckEnqueuing, SavingValues;
    var allowed := cache.CheckEnqueuingAllowed();
    if allowed.Err? {
      return Err(Enqueuing(allowed.error));
    }
    cache.Meanwhile(others);
    r := SaveValues(cache, ctx, machine, savedAt, readValues);
  }

  /** A request succeeds exactly when it finds the backlog below the threshold and what it reads
      slices into sheets that can be stored; it then adds exactly these to what others have made of
      the cache, and otherwise nothing. */
  lemma SavedIffSuccessful(store: Store, others: Store -> Store, threshold: nat, fmt: Json.FloatFormat,
                           ctx: SheetsContext, machine: Utf8, savedAt: Instant, readValues: Option<seq<DataValue>>)
    requires ctx.partIdIndex < |ctx.general|
    ensures
      var (r, after) := Saving(store, others, threshold, fmt, ctx, machine, savedAt, readValues);
      && (r.Err? ==> after == if store.Backlog() < threshold then others(store) else store)
      && (r.Ok? <==>
            && store.Backlog() < threshold && readValues.Some?
            && exists part, general, operation ::
                 && IsSlicing(ctx, readValues.value, part, general, operation)
                 && Saved(fmt, others(store), Save(savedAt, machine, part, general, operation)) == Ok(after))
  {
    hide SliceSheets, IsSlicing, Saved;
    if readValues.Some? {
      forall part, general, operation {
        SlicingIff(ctx, readValues.value, part, general, operation);
      }
      var sliced := SliceSheets(ctx, readValues.value);
      if sliced.Ok? {
        var (part, general, operation) := sliced.value;
        assert IsSlicing(ctx, readValues.value, part, general, operation);
      }
    }
  }

  /** Sheets that slice can be stored exactly when the general one has at most 65535 nodes, and all
      their values are supported. */
  lemma SavedIffSupported(fmt: Json.FloatFormat, store: Store, save: Save)
    ensures Saved(fmt, store, save).Ok? <==>
            && |save.general| <= 0xFFFF
            && (forall i :: 0 <= i < |save.general| ==> Supported(save.general[i].value))
            && (forall i :: 0 <= i < |save.operation| ==> Supported(save.operation[i].value))
  {
    hide EncodeForArchive, Enqueued, Supported;
    ArchivedIffSupported(fmt, save.savedAt, save.machine, save.part, save.general);
    ArchivedIffSupported(fmt, save.savedAt, save.machine, save.part, save.operation);
  }
}
