/** The read request: loading the sheet last saved for a part, whichever machine saved it. */
module ReadRequest {
  import opened Wrappers
  import opened AsciiText
  import opened Variants
  import opened PartSheets
  import opened Cache
  import opened SaveRequest
  import opened Server
  import opened Gateway
  import Guarantees

  datatype HandleReadError =
    | ReadPartId
    | PartIdValue(badPartId: ValueError)
    | CacheGet(failure: GetError)
    | CacheGetTask
    | CacheMissing(part: PartId)
    | WritePartSheet(refusal: WriteError)

  /** Where the general sheet is on the server of a machine, and what is never written to it. */
  datatype LoadContext = LoadContext(namespaceIndex: u16, partIdNid: u32, excluded: seq<u32>)
  {
    function Node(id: u32): NodeId {
      NodeId(namespaceIndex, id)
    }
  }

  /** The part a machine asks for. */
  function RequestedPart(answer: Option<DataValue>): Result<PartId, HandleReadError> {
    match answer
    case None => Err(ReadPartId)
    case Some(d) =>
      var v :- IntoVariant(d).MapErr(e => HandleReadError.PartIdValue(e));
      var part :- IntoAscii(v, 23).MapErr(e => HandleReadError.PartIdValue(e));
      Ok(part)
  }

  /** One write per cached item, except for the excluded nodes. */
  function WritesFor(ctx: LoadContext, items: seq<CachedItem>): seq<WriteValue> {
    if items == [] then []
    else
      var n := |items| - 1;
      var before := WritesFor(ctx, items[..n]);
      if items[n].0 in ctx.excluded then before else before + [WriteValue(ctx.Node(items[n].0), items[n].1)]
  }

  /** What a request writes, or the reason why it writes nothing. */
  function SheetToWrite(store: Store, ctx: LoadContext, answer: Option<DataValue>)
    : Result<seq<WriteValue>, HandleReadError>
  {
    var part :- RequestedPart(answer);
    var cached :- GetGeneralPartSheet(store, part).MapErr(e => CacheGet(e));
    match cached
    case None => Err(CacheMissing(part))
    case Some(items) => Ok(WritesFor(ctx, items))
  }

  /** What a request makes of the variables of the machine. */
  function Loading(store: Store, variables: Variables, ctx: LoadContext, answer: Option<DataValue>,
                   outcome: WriteOutcome)
    : (Result<(), HandleReadError>, Variables)
  {
    match SheetToWrite(store, ctx, answer)
    case Err(e) => (Err(e), variables)
    case Ok(writes) =>
      (Checked(writes, outcome).MapErr(e => WritePartSheet(e)), Written(variables, writes, outcome.dropped))
  }

  /** Handles a read request, given what the server answers to the read and what becomes of the
      write. Nothing is written unless a sheet is found. */
  method HandleRead(cache: TraceabilityCache, server: OpcUaServer, ctx: LoadContext,
                    answer: Option<DataValue>, outcome: WriteOutcome)
    returns (r: Result<(), HandleReadError>)
    modifies server
    ensures (r, server.variables) == Loading(cache.State(), old(server.variables), ctx, answer, outcome)
  {
    if answer.None? {
      return Err(ReadPartId);
    }
    var value := IntoVariant(answer.value);
    if value.Err? {
      return Err(HandleReadError.PartIdValue(value.error));
    }
    var part := IntoAscii(value.value, 23);
    if part.Err? {
      return Err(HandleReadError.PartIdValue(part.error));
    }
    var cached := cache.GetSheet(part.value);
    if cached.Err? {
      return Err(CacheGet(cached.error));
    }
    if cached.value.None? {
      return Err(CacheMissing(part.value));
    }
    var writes := WritesFor(ctx, cached.value.value);
    var written := server.WriteChecked(writes, outcome);
    return written.MapErr(e => WritePartSheet(e));
  }

  // ---------------------------------------------------------------------------
  // From a save on one machine to a load on another
  // ---------------------------------------------------------------------------

  /** The value a sheet gives a node. */
  function ValueIn(sheet: seq<Item>, id: u32): Option<Variant> {
    if sheet == [] then None
    else
      var n := |sheet| - 1;
      if sheet[n].id == id then Some(sheet[n].value) else ValueIn(sheet[..n], id)
  }

  predicate DistinctIds(sheet: seq<Item>) {
    forall i, j :: 0 <= i < j < |sheet| ==> sheet[i].id != sheet[j].id
  }

  /** The last write to a node carries the value the sheet gives it, if it is not excluded. */
  lemma {:induction false} WritesCarryTheSheet(ctx: LoadContext, sheet: seq<Item>, node: NodeId)
    ensures LastWrite(WritesFor(ctx, CachedItems(sheet)), node) ==
            if node.namespaceIndex == ctx.namespaceIndex && node.id !in ctx.excluded
            then ValueIn(sheet, node.id) else None
  {
    if sheet != [] {
      var n := |sheet| - 1;
      WritesCarryTheSheet(ctx, sheet[..n], node);
      assert CachedItems(sheet)[..n] == CachedItems(sheet[..n]);
      var before := WritesFor(ctx, CachedItems(sheet[..n]));
      if sheet[n].id !in ctx.excluded {
        var one := WriteValue(ctx.Node(sheet[n].id), sheet[n].value);
        assert (before + [one])[..|before|] == before;
      }
    }
  }

  /** A node of the general sheet of a part that requests may write to. */
  predicate IsLoaded(ctx: LoadContext, sheet: seq<Item>, node: NodeId) {
    node.namespaceIndex == ctx.namespaceIndex && node.id !in ctx.excluded && ValueIn(sheet, node.id).Some?
  }

  /** The other nodes keep their values. */
  ghost predicate OthersSpared(ctx: LoadContext, sheet: seq<Item>, before: Variables, after: Variables) {
    forall node: NodeId :: !IsLoaded(ctx, sheet, node) ==>
      (node in after <==> node in before) && (node in before ==> after[node] == before[node])
  }

  ghost predicate Loaded(ctx: LoadContext, sheet: seq<Item>, after: Variables) {
    forall node: NodeId :: IsLoaded(ctx, sheet, node) ==>
      node in after && after[node] == ValueIn(sheet, node.id).value
  }

  /** The answer is good, and names a part. */
  ghost predicate AsksFor(answer: Option<DataValue>, part: PartId) {
    && answer.Some? && answer.value.isGood && answer.value.value.Some?
    && NamesPart(answer.value.value.value, part)
  }

  lemma RequestedPartIs(answer: Option<DataValue>, part: PartId)
    ensures RequestedPart(answer) == Ok(part) <==> AsksFor(answer, part)
  {
  }

  /** An answer that names no part loads nothing. */
  lemma LoadNeedsAPart(store: Store, ctx: LoadContext, answer: Option<DataValue>, before: Variables,
                       outcome: WriteOutcome)
    requires forall part :: !AsksFor(answer, part)
    ensures
      var (r, after) := Loading(store, before, ctx, answer, outcome);
      && after == before && r.Err?
      && if answer.None? then r.error.ReadPartId? else r.error.PartIdValue?
  {
    hide AsksFor;
    if RequestedPart(answer).Ok? {
      RequestedPartIs(answer, RequestedPart(answer).value);
    }
  }

  /** End to end: in every run, a request for a part finds the general sheet of the last committed
      save of the part, whichever machine saved it. When it succeeds, each node of that sheet holds
      the saved value, except for the excluded ones; whatever becomes of its write, no other variable
      changes; and it succeeds when its write does. For a part never saved it writes nothing. */
  lemma LoadGivesTheLastSave(cfg: Config, run: seq<Event>, ctx: LoadContext, part: PartId, answer: Option<DataValue>,
                             before: Variables, outcome: WriteOutcome)
    requires Execute(cfg, run).Some? && |Execute(cfg, run).value.history| <= MAX_SAVES && AsksFor(answer, part)
    ensures
      var w := Execute(cfg, run).value;
      var (r, after) := Loading(w.store, before, ctx, answer, outcome);
      match LastSave(w.history, part)
      case None =>
        after == before && r == Err(if w.history == [] then CacheGet(TableDoesNotExist) else CacheMissing(part))
      case Some(save) =>
        && OthersSpared(ctx, save.general, before, after)
        && (r.Ok? ==> Loaded(ctx, save.general, after))
        && (outcome.answered && outcome.dropped == {} ==> r.Ok?)
  {
    hide Execute, GetGeneralPartSheet, Written, LastWrite, WritesFor, IsLoaded, RequestedPart, AsksFor, OthersSpared,
         Loaded;
    var w := Execute(cfg, run).value;
    RequestedPartIs(answer, part);
    Guarantees.CacheAgreesWithHistory(cfg, run, part);
    Guarantees.NothingSavedMeansNoSave(part);
    var last := LastSave(w.history, part);
    if last.Some? {
      var writes := WritesFor(ctx, CachedItems(last.value.general));
      WritesSpareOthers(ctx, last.value.general, before, outcome.dropped);
      if Checked(writes, outcome).Ok? {
        WritesLoadTheSheet(ctx, last.value.general, before, outcome.dropped);
      }
    }
  }

  lemma LastWriteIsLoaded(ctx: LoadContext, sheet: seq<Item>, node: NodeId)
    ensures LastWrite(WritesFor(ctx, CachedItems(sheet)), node) ==
            if IsLoaded(ctx, sheet, node) then ValueIn(sheet, node.id) else None
  {
    hide LastWrite, WritesFor, ValueIn;
    WritesCarryTheSheet(ctx, sheet, node);
  }

  lemma WritesSpareOthers(ctx: LoadContext, sheet: seq<Item>, before: Variables, dropped: set<nat>)
    ensures OthersSpared(ctx, sheet, before, Written(before, WritesFor(ctx, CachedItems(sheet)), dropped))
  {
    hide Written, LastWrite, WritesFor, IsLoaded;
    var writes := WritesFor(ctx, CachedItems(sheet));
    forall node: NodeId | !IsLoaded(ctx, sheet, node)
      ensures
        var after := Written(before, writes, dropped);
        (node in after <==> node in before) && (node in before ==> after[node] == before[node])
    {
      LastWriteIsLoaded(ctx, sheet, node);
      WrittenElsewhere(before, writes, dropped, node);
    }
  }

  lemma WritesLoadTheSheet(ctx: LoadContext, sheet: seq<Item>, before: Variables, dropped: set<nat>)
    requires forall i :: 0 <= i < |WritesFor(ctx, CachedItems(sheet))| ==> i !in dropped
    ensures Loaded(ctx, sheet, Written(before, WritesFor(ctx, CachedItems(sheet)), dropped))
  {
    hide Written, LastWrite, WritesFor, ValueIn;
    var writes := WritesFor(ctx, CachedItems(sheet));
    forall node: NodeId | IsLoaded(ctx, sheet, node)
      ensures
        var after := Written(before, writes, dropped);
        node in after && after[node] == ValueIn(sheet, node.id).value
    {
      LastWriteIsLoaded(ctx, sheet, node);
      WrittenInFull(before, writes, dropped, node);
    }
  }

  /** Loading never changes the part identifier: the sheet found under a part holds that part at
      the part identifier node, so writing it, in full or in part, leaves the node as it is. */
  lemma LoadKeepsThePartId(cfg: Config, run: seq<Event>, ctx: LoadContext, part: PartId, answer: Option<DataValue>,
                           before: Variables, outcome: WriteOutcome)
    requires Execute(cfg, run).Some? && |Execute(cfg, run).value.history| <= MAX_SAVES && AsksFor(answer, part)
    requires ctx.partIdNid == cfg.partIdNid
    requires ctx.Node(ctx.partIdNid) in before && NamesPart(before[ctx.Node(ctx.partIdNid)], part)
    requires LastSave(Execute(cfg, run).value.history, part).Some? ==>
               DistinctIds(LastSave(Execute(cfg, run).value.history, part).value.general)
    ensures
      var after := Loading(Execute(cfg, run).value.store, before, ctx, answer, outcome).1;
      ctx.Node(ctx.partIdNid) in after && NamesPart(after[ctx.Node(ctx.partIdNid)], part)
  {
    hide Execute, GetGeneralPartSheet, Written, WritesFor, SaveOk, NamesItsPart, DistinctIds, RequestedPart, AsksFor;
    var w := Execute(cfg, run).value;
    RequestedPartIs(answer, part);
    Guarantees.CacheAgreesWithHistory(cfg, run, part);
    if LastSave(w.history, part).Some? {
      Guarantees.LastSaveNamesPart(cfg, run, part);
      WritesKeepThePartId(cfg, ctx, LastSave(w.history, part).value, before, outcome.dropped);
    }
  }

  lemma WritesKeepThePartId(cfg: Config, ctx: LoadContext, save: Save, before: Variables, dropped: set<nat>)
    requires NamesItsPart(cfg, save) && DistinctIds(save.general) && ctx.partIdNid == cfg.partIdNid
    requires ctx.Node(ctx.partIdNid) in before && before[ctx.Node(ctx.partIdNid)] == UaString(Some(save.part))
    ensures
      var after := Written(before, WritesFor(ctx, CachedItems(save.general)), dropped);
      ctx.Node(ctx.partIdNid) in after && after[ctx.Node(ctx.partIdNid)] == UaString(Some(save.part))
  {
    hide Written, WritesFor;
    var writes := WritesFor(ctx, CachedItems(save.general));
    WritesNameThePart(cfg, ctx, save, writes);
    WritingTheSame(before, writes, dropped, ctx.Node(ctx.partIdNid));
  }

  /** What is written to the part identifier node is the part the sheet is about. */
  lemma WritesNameThePart(cfg: Config, ctx: LoadContext, save: Save, writes: seq<WriteValue>)
    requires NamesItsPart(cfg, save) && DistinctIds(save.general) && ctx.partIdNid == cfg.partIdNid
    requires writes == WritesFor(ctx, CachedItems(save.general))
    ensures forall j :: 0 <= j < |writes| && writes[j].node == ctx.Node(ctx.partIdNid) ==>
              writes[j].value == UaString(Some(save.part))
  {
    hide WritesFor;
    var i :|
      && 0 <= i < |save.general| && save.general[i].id == cfg.partIdNid
      && NamesPart(save.general[i].value, save.part);
    forall j | 0 <= j < |writes| && writes[j].node == ctx.Node(ctx.partIdNid)
      ensures writes[j].value == UaString(Some(save.part))
    {
      WritesAreItems(ctx, save.general, j);
    }
  }

  lemma {:induction false} WritesAreItems(ctx: LoadContext, sheet: seq<Item>, j: nat)
    requires j < |WritesFor(ctx, CachedItems(sheet))|
    ensures exists i ::
              && 0 <= i < |sheet|
              && WritesFor(ctx, CachedItems(sheet))[j] == WriteValue(ctx.Node(sheet[i].id), sheet[i].value)
  {
    if sheet != [] {
      var n := |sheet| - 1;
      assert CachedItems(sheet)[..n] == CachedItems(sheet[..n]);
      if j < |WritesFor(ctx, CachedItems(sheet[..n]))| {
        WritesAreItems(ctx, sheet[..n], j);
        var before := sheet[..n];
        var i :|
          0 <= i < n && WritesFor(ctx, CachedItems(before))[j] == WriteValue(ctx.Node(before[i].id), before[i].value);
        assert sheet[..n][i] == sheet[i];
      } else {
        assert WritesFor(ctx, CachedItems(sheet))[j] == WriteValue(ctx.Node(sheet[n].id), sheet[n].value);
      }
    }
  }

  lemma {:induction false} WritingTheSame(variables: Variables, writes: seq<WriteValue>, dropped: set<nat>,
                                          node: NodeId)
    requires node in variables
    requires forall j :: 0 <= j < |writes| && writes[j].node == node ==> writes[j].value == variables[node]
    ensures node in Written(variables, writes, dropped) && Written(variables, writes, dropped)[node] == variables[node]
  {
    if writes != [] {
      WritingTheSame(variables, writes[..|writes| - 1], dropped, node);
    }
  }
}
