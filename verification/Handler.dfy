/** The request handler of a machine, with what its requests change. */
module Handler {
  import opened Wrappers
  import opened Calendar
  import opened AsciiText
  import opened Variants
  import opened PartSheets
  import opened PartIdentifier
  import opened Cache
  import opened SaveRequest
  import opened ReadRequest
  import opened CreateRequest
  import opened Requests
  import opened Server
  import Json

  /** What a handler is made with. */
  datatype Context = Context(
    machine: Utf8,
    line: Option<Code2>,
    sheets: SheetsContext,
    load: LoadContext,
    response: NodeId,
    unicode: UnicodeReader,
    threshold: nat,
    floats: Json.FloatFormat)
  {
    predicate Valid() {
      sheets.partIdIndex < |sheets.general|
    }

    function PartIdNode(): NodeId {
      load.Node(load.partIdNid)
    }
  }

  /** What the clocks and the server of the machine answer while a request is handled, and what
      others make of the cache whenever the handler waits: before it turns to the request, and
      between the admission of a save and the save. */
  datatype Surroundings = Surroundings(
    others: Store -> Store,
    othersMeanwhile: Store -> Store,
    today: Date,
    createRead: Option<seq<DataValue>>,
    createWrite: WriteOutcome,
    loadRead: Option<DataValue>,
    loadWrite: WriteOutcome,
    savedAt: Instant,
    saveRead: Option<seq<DataValue>>,
    responseWrite: WriteOutcome)

  /** What a handler works on: the cache, and the variables of the machine. */
  datatype Stage = Stage(store: Store, variables: Variables)

  /** How each operation would end if it were run now. */
  function OutcomesNow(ctx: Context, around: Surroundings, stage: Stage): Operations
    requires ctx.Valid()
  {
    Operations(
      Creating(stage.store, stage.variables, ctx.unicode, ctx.PartIdNode(), ctx.line, around.createRead, around.today,
               around.createWrite).0,
      Loading(stage.store, stage.variables, ctx.load, around.loadRead, around.loadWrite).0,
      Saving(stage.store, around.othersMeanwhile, ctx.threshold, ctx.floats, ctx.sheets, ctx.machine, around.savedAt,
             around.saveRead).0)
  }

  /** What the operation behind a request value leaves. */
  function Operated(ctx: Context, value: DataValue, around: Surroundings, stage: Stage): Stage
    requires ctx.Valid()
  {
    match IntoByte(value)
    case Err(_) => stage
    case Ok(code) =>
      match FromRepr(code)
      case None => stage
      case Some(Reset) => stage
      case Some(CreatePartId) =>
        var (_, store, variables) :=
          Creating(stage.store, stage.variables, ctx.unicode, ctx.PartIdNode(), ctx.line, around.createRead,
                   around.today, around.createWrite);
        Stage(store, variables)
      case Some(ReadPartSheet) =>
        Stage(stage.store, Loading(stage.store, stage.variables, ctx.load, around.loadRead, around.loadWrite).1)
      case Some(SavePartSheets) =>
        var (_, store) :=
          Saving(stage.store, around.othersMeanwhile, ctx.threshold, ctx.floats, ctx.sheets, ctx.machine,
                 around.savedAt, around.saveRead);
        Stage(store, stage.variables)
  }

  /** Handles a request value: runs the operation it asks for, and none other. */
  method HandleRequest(cache: TraceabilityCache, server: OpcUaServer, ctx: Context, value: DataValue,
                       around: Surroundings)
    returns (r: Result<u8, HandleRequestError>)
    requires ctx.Valid() && cache.queuesThreshold == ctx.threshold && cache.floatFormat == ctx.floats
    modifies cache, server
    ensures
      var before := old(Stage(cache.State(), server.variables));
      && r == Requests.HandleRequest(value, OutcomesNow(ctx, around, before))
      && Stage(cache.State(), server.variables) == Operated(ctx, value, around, before)
    ensures value == DataValue(true, Some(Byte(1))) ==>
              var (done, store, variables) :=
                Creating(old(cache.State()), old(server.variables), ctx.unicode, ctx.PartIdNode(), ctx.line,
                         around.createRead, around.today, around.createWrite);
              && cache.State() == store && server.variables == variables
              && r == match done case Ok(_) => Ok(1) case Err(e) => Err(CreateFailed(e))
    ensures value == DataValue(true, Some(Byte(2))) ==>
              var (done, variables) :=
                Loading(old(cache.State()), old(server.variables), ctx.load, around.loadRead, around.loadWrite);
              && cache.State() == old(cache.State()) && server.variables == variables
              && r == match done case Ok(_) => Ok(1) case Err(e) => Err(ReadFailed(e))
    ensures value == DataValue(true, Some(Byte(3))) ==>
              var (done, store) :=
                Saving(old(cache.State()), around.othersMeanwhile, ctx.threshold, ctx.floats, ctx.sheets, ctx.machine,
                       around.savedAt, around.saveRead);
              && cache.State() == store && server.variables == old(server.variables)
              && r == match done case Ok(_) => Ok(1) case Err(e) => Err(SaveFailed(e))
    ensures (forall code: u8 :: 1 <= code <= 3 ==> value != DataValue(true, Some(Byte(code)))) ==>
              && cache.State() == old(cache.State()) && server.variables == old(server.variables)
              && (value == DataValue(true, Some(Byte(0))) ==> r == Ok(0))
              && (value != DataValue(true, Some(Byte(0))) ==> r.Err? && (r.error.BadValue? || r.error.UnknownValue?))
  {
    hide Creating, Loading, Saving;
    assert forall code: u8 :: IntoByte(value) == Ok(code) <==> value == DataValue(true, Some(Byte(code)));
    var code := IntoByte(value);
    if code.Err? {
      return Err(BadValue(code.error));
    }
    var request := FromRepr(code.value);
    if request.None? {
      return Err(UnknownValue(code.value));
    }
    match request.value {
      case Reset =>
        return Ok(RESPONSE_RESET);
      case CreatePartId =>
        var created := CreateRequest.CreatePartId(cache, server, ctx.unicode, ctx.PartIdNode(), ctx.line,
                                                  around.createRead, around.today, around.createWrite);
        if created.Err? {
          return Err(CreateFailed(created.error));
        }
      case ReadPartSheet =>
        var read := HandleRead(cache, server, ctx.load, around.loadRead, around.loadWrite);
        if read.Err? {
          return Err(ReadFailed(read.error));
        }
      case SavePartSheets =>
        var saved := HandleSave(cache, ctx.sheets, ctx.machine, around.savedAt, around.saveRead,
                                around.othersMeanwhile);
        if saved.Err? {
          return Err(SaveFailed(saved.error));
        }
    }
    return Ok(RESPONSE_SUCCESS);
  }

  // ---------------------------------------------------------------------------
  // What the responses tell
  // ---------------------------------------------------------------------------

  /** The response to a creation request tells the first thing that went wrong. */
  lemma CreationIsAnswered(ctx: Context, around: Surroundings, stage: Stage)
    requires ctx.Valid()
    ensures
      var answer, serial := around.createRead, Cache.NextSerial(stage.store, around.today);
      ResponseTo(DataValue(true, Some(Byte(1))), OutcomesNow(ctx, around, stage)) ==
      if ctx.line.None? then 11
      else if answer.None? || |answer.value| != 2 then 12
      else if forall text: Utf8 :: !HoldsText(answer.value[0], text) then 13
      else if forall batch: Code2 :: !HoldsText(answer.value[1], batch) then 14
      else if serial > 99999 || ReferenceText(ctx.unicode, answer.value[0].value.value.text.value).None? then 16
      else if !around.createWrite.answered || 0 in around.createWrite.dropped then 17
      else 1
  {
    hide ReferenceText, CreatePartIdentifier, Loading, Saving, Written, Creating, RequestInputs;
    var inputs := RequestInputs(ctx.line, around.createRead);
    CreationCode(OutcomesNow(ctx, around, stage));
    if inputs.Err? {
      RefusedInputs(ctx.line, around.createRead);
      InputsAreNeeded(ctx, around, stage);
    } else {
      var (reference, batch, line) := inputs.value;
      InputsIff(ctx.line, around.createRead, reference, batch, line);
      IdentifierIsWritten(stage.store, stage.variables, ctx.unicode, ctx.PartIdNode(), ctx.line, around.createRead,
                          around.today, around.createWrite, reference, batch, line);
      CreationSucceedsIff(ctx.unicode, Creation(reference, batch, line, around.today,
                                                Cache.NextSerial(stage.store, around.today)));
    }
  }

  lemma InputsAreNeeded(ctx: Context, around: Surroundings, stage: Stage)
    requires ctx.Valid() && RequestInputs(ctx.line, around.createRead).Err?
    ensures OutcomesNow(ctx, around, stage).create == Err(RequestInputs(ctx.line, around.createRead).error)
  {
    hide RequestInputs, Loading, Saving;
  }

  lemma CreationCode(ops: Operations)
    ensures ResponseTo(DataValue(true, Some(Byte(1))), ops) ==
            match ops.create case Ok(_) => 1 case Err(e) => ToResponseCode(CreateFailed(e))
  {
  }

  /** So does the response to a load request. */
  lemma LoadIsAnswered(ctx: Context, around: Surroundings, stage: Stage, part: PartId)
    requires ctx.Valid()
    ensures
      var answer := around.loadRead;
      var code := ResponseTo(DataValue(true, Some(Byte(2))), OutcomesNow(ctx, around, stage));
      && (answer.None? ==> code == 21)
      && (answer.Some? && (forall p: PartId :: !AsksFor(answer, p)) ==> code == 22)
      && (AsksFor(answer, part) ==>
            match GetGeneralPartSheet(stage.store, part)
            case Err(_) => code == 23
            case Ok(None) => code == 24
            case Ok(Some(items)) =>
              code == if AllApplied(around.loadWrite, |WritesFor(ctx.load, items)|) then 1 else 25)
  {
    hide GetGeneralPartSheet, WritesFor, AllApplied, Creating, Saving, Written, RequestedPart;
    forall p: PartId ensures RequestedPart(around.loadRead) == Ok(p) <==> AsksFor(around.loadRead, p) {
      RequestedPartIs(around.loadRead, p);
    }
    if RequestedPart(around.loadRead).Ok? {
      RequestedPartIs(around.loadRead, RequestedPart(around.loadRead).value);
    } else {
      LoadNeedsAPart(stage.store, ctx.load, around.loadRead, stage.variables, around.loadWrite);
    }
  }

  /** And so does the response to a save request. */
  lemma SaveIsAnswered(ctx: Context, around: Surroundings, stage: Stage)
    requires ctx.Valid()
    ensures
      var read, general := around.saveRead, |ctx.sheets.general|;
      ResponseTo(DataValue(true, Some(Byte(3))), OutcomesNow(ctx, around, stage)) ==
      if |stage.store.Queue(General)| + |stage.store.Queue(Operation)| >= ctx.threshold then 35
      else if read.None? || |read.value| != general + |ctx.sheets.operation| then 31
      else if exists i :: 0 <= i < |read.value| && !(read.value[i].isGood && read.value[i].value.Some?) then 32
      else if NamesNoPart(ctx.sheets, read.value) then 33
      else if general > 0xFFFF || exists i :: 0 <= i < |read.value| && !Supported(read.value[i].value.value) then 34
      else 1
  {
    hide Creating, Loading, SliceSheets, Saved, ValidatePartIdentifier, Supported;
    if around.saveRead.Some? {
      var values := around.saveRead.value;
      var sliced := SliceSheets(ctx.sheets, values);
      if sliced.Err? {
        RefusedSlicing(ctx.sheets, values);
      } else {
        var (part, general, operation) := sliced.value;
        SlicingIff(ctx.sheets, values, part, general, operation);
        var save := Save(around.savedAt, ctx.machine, part, general, operation);
        SavedIffSupported(ctx.floats, around.othersMeanwhile(stage.store), save);
        SheetsHoldValues(ctx.sheets, values, save);
      }
    }
  }

  lemma SheetsHoldValues(ctx: SheetsContext, values: seq<DataValue>, save: Save)
    requires IsSlicing(ctx, values, save.part, save.general, save.operation)
    ensures |save.general| == |ctx.general| && !NamesNoPart(ctx, values)
    ensures |values| == |save.general| + |save.operation| && AllGood(values)
    ensures (forall i :: 0 <= i < |values| ==> Supported(values[i].value.value)) <==>
            && (forall i :: 0 <= i < |save.general| ==> Supported(save.general[i].value))
            && (forall i :: 0 <= i < |save.operation| ==> Supported(save.operation[i].value))
  {
    hide Supported, ValidatePartIdentifier, IsSlicing;
    ValuesOfSheets(ctx, values, save);
    var n := |save.general|;
    if forall i :: 0 <= i < |values| ==> Supported(values[i].value.value) {
      forall i | 0 <= i < |save.operation| ensures Supported(save.operation[i].value) {
        assert Supported(values[n + i].value.value);
      }
    } else {
      var i :| 0 <= i < |values| && !Supported(values[i].value.value);
      if i < n {
        assert !Supported(save.general[i].value);
      } else {
        assert !Supported(save.operation[i - n].value);
      }
    }
  }

  lemma ValuesOfSheets(ctx: SheetsContext, values: seq<DataValue>, save: Save)
    requires IsSlicing(ctx, values, save.part, save.general, save.operation)
    ensures |save.general| == |ctx.general| && !NamesNoPart(ctx, values)
    ensures |values| == |save.general| + |save.operation| && AllGood(values)
    ensures forall i :: 0 <= i < |save.general| ==> save.general[i].value == values[i].value.value
    ensures forall i :: 0 <= i < |save.operation| ==>
              save.operation[i].value == values[|save.general| + i].value.value
  {
    hide ValidatePartIdentifier;
    var n := |ctx.general|;
    assert forall i :: 0 <= i < n ==> values[..n][i] == values[i];
    assert forall i :: 0 <= i < |values| - n ==> values[n..][i] == values[n + i];
  }

  // ---------------------------------------------------------------------------
  // The loop
  // ---------------------------------------------------------------------------

  /** The value that is handled, its response, and the response written, whatever becomes of it. */
  function Responded(ctx: Context, value: DataValue, around: Surroundings, stage: Stage): Stage
    requires ctx.Valid()
  {
    var code := ResponseTo(value, OutcomesNow(ctx, around, stage));
    var after := Operated(ctx, value, around, stage);
    after.(variables := Written(after.variables, [WriteValue(ctx.response, Byte(code))], around.responseWrite.dropped))
  }

  /** The stage once others have used the cache. */
  function AfterOthers(around: Surroundings, stage: Stage): Stage {
    stage.(store := around.others(stage.store))
  }

  /** What a handler leaves after some values. */
  function StageAfter(ctx: Context, values: seq<DataValue>, read: Option<seq<DataValue>>, around: seq<Surroundings>,
                      stage: Stage): Stage
    requires ctx.Valid() && |around| == |values|
  {
    if values == [] then stage
    else
      var n := |values| - 1;
      var before := AfterOthers(around[n], StageAfter(ctx, values[..n], read, around[..n], stage));
      if n == 0 && IsInitialRequestAnswered(values[0], read) then before
      else Responded(ctx, values[n], around[n], before)
  }

  /** How the operations end, each at its turn. */
  function OutcomesAlong(ctx: Context, values: seq<DataValue>, read: Option<seq<DataValue>>,
                         around: seq<Surroundings>, stage: Stage)
    : (ops: seq<Operations>)
    requires ctx.Valid() && |around| == |values|
    ensures |ops| == |values|
  {
    if values == [] then []
    else
      var n := |values| - 1;
      OutcomesAlong(ctx, values[..n], read, around[..n], stage)
      + [OutcomesNow(ctx, around[n], AfterOthers(around[n], StageAfter(ctx, values[..n], read, around[..n], stage)))]
  }

  lemma OneTurnMore(ctx: Context, values: seq<DataValue>, read: Option<seq<DataValue>>, around: seq<Surroundings>,
                    stage: Stage, i: nat)
    requires ctx.Valid() && i < |values| == |around|
    ensures values[..i + 1][..i] == values[..i] && around[..i + 1][..i] == around[..i]
    ensures OutcomesAlong(ctx, values[..i + 1], read, around[..i + 1], stage) ==
            OutcomesAlong(ctx, values[..i], read, around[..i], stage)
            + [OutcomesNow(ctx, around[i],
                           AfterOthers(around[i], StageAfter(ctx, values[..i], read, around[..i], stage)))]
    ensures StageAfter(ctx, values[..i + 1], read, around[..i + 1], stage) ==
            var before := AfterOthers(around[i], StageAfter(ctx, values[..i], read, around[..i], stage));
            if i == 0 && IsInitialRequestAnswered(values[0], read) then before
            else Responded(ctx, values[i], around[i], before)
  {
    hide OutcomesNow, Responded, IsInitialRequestAnswered;
    assert values[..i + 1][..i] == values[..i] && around[..i + 1][..i] == around[..i];
  }

  lemma RepliesSnoc(values: seq<DataValue>, read: Option<seq<DataValue>>, ops: seq<Operations>, op: Operations)
    requires |values| == |ops| + 1
    ensures Replies(values, read, ops + [op]) ==
            Replies(values[..|ops|], read, ops)
            + if |ops| == 0 && IsInitialRequestAnswered(values[0], read) then [] else [ResponseTo(values[|ops|], op)]
  {
    hide IsInitialRequestAnswered, ResponseTo;
    assert (ops + [op])[..|ops|] == ops;
  }

  /** The first value is handled when it is a reset, whatever the server answers, and otherwise only
      when the server answers with a single response, good and reset. When it is not handled, no
      operation runs and nothing is written. */
  lemma FirstValueIsHandledIff(ctx: Context, values: seq<DataValue>, read: Option<seq<DataValue>>,
                               around: seq<Surroundings>, stage: Stage)
    requires ctx.Valid() && |around| == |values| > 0
    ensures
      var found := stage.(store := around[0].others(stage.store));
      var after := StageAfter(ctx, values[..1], read, around[..1], stage);
      var codes := Replies(values, read, OutcomesAlong(ctx, values, read, around, stage));
      if values[0] == DataValue(true, Some(Byte(0))) then
        && |codes| == |values| && codes[0] == 0
        && after == found.(variables := Written(found.variables, [WriteValue(ctx.response, Byte(0))],
                                                around[0].responseWrite.dropped))
      else if read == Some([DataValue(true, Some(Byte(0)))]) then
        && |codes| == |values| && codes[0] == ResponseTo(values[0], OutcomesNow(ctx, around[0], found))
        && after == Responded(ctx, values[0], around[0], found)
      else
        |codes| == |values| - 1 && after == found
  {
    hide OutcomesNow, IsInitialRequestAnswered, Replies, OutcomesAlong, Written;
    InitialRequestAnsweredIff(values[0], read);
    OneReplyEach(values, read, OutcomesAlong(ctx, values, read, around, stage));
    FirstOutcome(ctx, values, read, around, stage);
    assert values[..1][0] == values[0] && around[..1][0] == around[0];
    assert values[..1][..0] == [] && around[..1][..0] == [];
  }

  lemma {:induction false} FirstOutcome(ctx: Context, values: seq<DataValue>, read: Option<seq<DataValue>>,
                                        around: seq<Surroundings>, stage: Stage)
    requires ctx.Valid() && |around| == |values| > 0
    ensures OutcomesAlong(ctx, values, read, around, stage)[0] ==
            OutcomesNow(ctx, around[0], stage.(store := around[0].others(stage.store)))
  {
    hide OutcomesNow, Responded, IsInitialRequestAnswered;
    var n := |values| - 1;
    if n > 0 {
      FirstOutcome(ctx, values[..n], read, around[..n], stage);
    }
  }

  /** The handler over the request values it receives until it is stopped, whatever others do to
      the cache when it waits. A response that fails to be written is not written again, and the
      handler goes on. */
  method HandleRequests(cache: TraceabilityCache, server: OpcUaServer, ctx: Context, values: seq<DataValue>,
                        read: Option<seq<DataValue>>, around: seq<Surroundings>)
    returns (codes: seq<u8>)
    requires ctx.Valid() && cache.queuesThreshold == ctx.threshold && cache.floatFormat == ctx.floats
    requires |around| == |values|
    modifies cache, server
    ensures
      var start := old(Stage(cache.State(), server.variables));
      && Stage(cache.State(), server.variables) == StageAfter(ctx, values, read, around, start)
      && codes == Replies(values, read, OutcomesAlong(ctx, values, read, around, start))
    ensures values != [] && values[0] == DataValue(true, Some(Byte(0))) ==> |codes| == |values| && codes[0] == 0
    ensures values != [] && values[0] != DataValue(true, Some(Byte(0))) ==>
              |codes| == if read == Some([DataValue(true, Some(Byte(0)))]) then |values| else |values| - 1
    ensures |values| == 1 && codes == [] ==>
              server.variables == old(server.variables) && cache.State() == around[0].others(old(cache.State()))
  {
    hide OutcomesNow, Operated, Responded, ResponseTo, IsInitialRequestAnswered, StageAfter, OutcomesAlong, Replies;
    ghost var start := Stage(cache.State(), server.variables);
    NothingHandled(ctx, read, start, values[..0], around[..0]);
    codes := [];
    var isInitial := true;
    for i := 0 to |values|
      invariant isInitial <==> i == 0
      invariant Stage(cache.State(), server.variables) == StageAfter(ctx, values[..i], read, around[..i], start)
      invariant codes == Replies(values[..i], read, OutcomesAlong(ctx, values[..i], read, around[..i], start))
    {
      cache.Meanwhile(around[i].others);
      ghost var stage := Stage(cache.State(), server.variables);
      OneTurnMore(ctx, values, read, around, start, i);
      RepliesSnoc(values[..i + 1], read, OutcomesAlong(ctx, values[..i], read, around[..i], start),
                  OutcomesNow(ctx, around[i], stage));
      var wasInitial := isInitial;
      isInitial := false;
      if wasInitial && IsInitialRequestAnswered(values[i], read) {
        continue;
      }
      var handled := HandleRequest(cache, server, ctx, values[i], around[i]);
      var code := match handled case Ok(c) => c case Err(e) => ToResponseCode(e);
      ResponseIs(values[i], OutcomesNow(ctx, around[i], stage));
      RespondedIs(ctx, values[i], around[i], stage);
      var _ := server.WriteChecked([WriteValue(ctx.response, Byte(code))], around[i].responseWrite);
      codes := codes + [code];
    }
    assert values[..|values|] == values && around[..|around|] == around;
    if values != [] {
      FirstValueIsHandledIff(ctx, values, read, around, start);
    }
  }

  lemma NothingHandled(ctx: Context, read: Option<seq<DataValue>>, stage: Stage, values: seq<DataValue>,
                       around: seq<Surroundings>)
    requires ctx.Valid() && values == [] && around == []
    ensures StageAfter(ctx, values, read, around, stage) == stage
    ensures Replies(values, read, OutcomesAlong(ctx, values, read, around, stage)) == []
  {
  }

  lemma ResponseIs(value: DataValue, ops: Operations)
    ensures ResponseTo(value, ops) ==
            match Requests.HandleRequest(value, ops) case Ok(c) => c case Err(e) => ToResponseCode(e)
  {
  }

  lemma RespondedIs(ctx: Context, value: DataValue, around: Surroundings, stage: Stage)
    requires ctx.Valid()
    ensures
      var after := Operated(ctx, value, around, stage);
      var code := ResponseTo(value, OutcomesNow(ctx, around, stage));
      Responded(ctx, value, around, stage) ==
      Stage(after.store, Written(after.variables, [WriteValue(ctx.response, Byte(code))], around.responseWrite.dropped))
  {
  }

  /** After the last value, the response variable shows its response, if the write was applied. */
  lemma LastResponseShows(ctx: Context, values: seq<DataValue>, read: Option<seq<DataValue>>,
                          around: seq<Surroundings>, stage: Stage)
    requires ctx.Valid() && |around| == |values| > 0 && 0 !in around[|values| - 1].responseWrite.dropped
    requires |values| > 1 || !IsInitialRequestAnswered(values[0], read)
    ensures
      var n := |values| - 1;
      var variables := StageAfter(ctx, values, read, around, stage).variables;
      && ctx.response in variables
      && variables[ctx.response] == Byte(ResponseTo(values[n], OutcomesAlong(ctx, values, read, around, stage)[n]))
  {
    hide OutcomesNow, Operated, ResponseTo, IsInitialRequestAnswered, Written;
    var n := |values| - 1;
    var before := AfterOthers(around[n], StageAfter(ctx, values[..n], read, around[..n], stage));
    var ops := OutcomesNow(ctx, around[n], before);
    SingleWrite(Operated(ctx, values[n], around[n], before).variables, ctx.response, Byte(ResponseTo(values[n], ops)),
                around[n].responseWrite.dropped);
  }
}
