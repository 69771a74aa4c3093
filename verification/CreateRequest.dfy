/** The part identifier creation request. */
module CreateRequest {
  import opened Wrappers
  import opened Bytes
  import opened Calendar
  import opened AsciiText
  import opened Variants
  import opened PartIdentifier
  import opened Cache
  import opened SaveRequest
  import opened Server
  import G = Gateway
  import Guarantees

  datatype CreatePartIdError =
    | NotConfigured
    | ReadVariables
    | ReadLength(got: nat)
    | PartRefValue(badReference: ValueError)
    | BatchValue(badBatch: ValueError)
    | NextSerial
    | NextSerialTask
    | CreateIdentifier(cause: PartIdentifierError)
    | WritePartId(refusal: WriteError)

  /** Text out of a string value. */
  function IntoText(v: Variant): Result<Utf8, ValueError> {
    match v
    case UaString(None) => Err(NullString)
    case UaString(Some(s)) => Ok(s)
    case _ => Err(InvalidType)
  }

  /** What a request takes from the machine before it takes a serial number. */
  function RequestInputs(line: Option<Code2>, answer: Option<seq<DataValue>>)
    : Result<(Utf8, Code2, Code2), CreatePartIdError>
  {
    match line
    case None => Err(NotConfigured)
    case Some(lineId) =>
      match answer
      case None => Err(ReadVariables)
      case Some(values) =>
        if |values| != 2 then Err(CreatePartIdError.ReadLength(|values|))
        else
          var v :- IntoVariant(values[0]).MapErr(e => PartRefValue(e));
          var reference :- IntoText(v).MapErr(e => PartRefValue(e));
          var b :- IntoVariant(values[1]).MapErr(e => BatchValue(e));
          var batch: bytes :- IntoAscii(b, 2).MapErr(e => BatchValue(e));
          Ok((reference, batch, lineId))
  }

  /** The write that hands a created identifier over to the machine. */
  function WritesOf(unicode: UnicodeReader, node: NodeId, c: Creation): seq<WriteValue>
    requires c.Identifier(unicode).Ok?
  {
    [WriteValue(node, UaString(Some(c.Identifier(unicode).value)))]
  }

  /** What a request makes of the cache and of the variables of the machine. */
  function Creating(store: Store, variables: Variables, unicode: UnicodeReader, node: NodeId, line: Option<Code2>,
                    answer: Option<seq<DataValue>>, today: Date, outcome: WriteOutcome)
    : (Result<(), CreatePartIdError>, Store, Variables)
  {
    match RequestInputs(line, answer)
    case Err(e) => (Err(e), store, variables)
    case Ok((reference, batch, lineId)) =>
      var c := Creation(reference, batch, lineId, today, Cache.NextSerial(store, today));
      match c.Identifier(unicode)
      case Err(e) => (Err(CreateIdentifier(e)), SerialTaken(store, today), variables)
      case Ok(_) =>
        var writes := WritesOf(unicode, node, c);
        (Checked(writes, outcome).MapErr(e => WritePartId(e)), SerialTaken(store, today),
         Written(variables, writes, outcome.dropped))
  }

  /** Handles a creation request, given what the server answers to the read and what becomes of
      the write. */
  method CreatePartId(cache: TraceabilityCache, server: OpcUaServer, unicode: UnicodeReader, partIdNode: NodeId,
                      line: Option<Code2>, answer: Option<seq<DataValue>>, today: Date, outcome: WriteOutcome)
    returns (r: Result<(), CreatePartIdError>)
    modifies cache`serials, server
    ensures (r, cache.State(), server.variables) ==
            Creating(old(cache.State()), old(server.variables), unicode, partIdNode, line, answer, today, outcome)
  {
    if line.None? {
      return Err(NotConfigured);
    }
    if answer.None? {
      return Err(ReadVariables);
    }
    if |answer.value| != 2 {
      return Err(CreatePartIdError.ReadLength(|answer.value|));
    }
    var referenceValue := IntoVariant(answer.value[0]);
    if referenceValue.Err? {
      return Err(PartRefValue(referenceValue.error));
    }
    var reference := IntoText(referenceValue.value);
    if reference.Err? {
      return Err(PartRefValue(reference.error));
    }
    var batchValue := IntoVariant(answer.value[1]);
    if batchValue.Err? {
      return Err(BatchValue(batchValue.error));
    }
    var batch := IntoAscii(batchValue.value, 2);
    if batch.Err? {
      return Err(BatchValue(batch.error));
    }
    var serial := cache.TakeSerial(today);
    var c := Creation(reference.value, batch.value, line.value, today, serial);
    var id := c.Identifier(unicode);
    if id.Err? {
      return Err(CreateIdentifier(id.error));
    }
    var written := server.WriteChecked(WritesOf(unicode, partIdNode, c), outcome);
    return written.MapErr(e => WritePartId(e));
  }

  // ---------------------------------------------------------------------------
  // The inputs
  // ---------------------------------------------------------------------------

  /** A good value that is a text. */
  ghost predicate HoldsText(d: DataValue, text: bytes) {
    d.isGood && d.value.Some? && d.value.value.UaString? && d.value.value.text == Some(text)
  }

  ghost predicate HasInputs(line: Option<Code2>, answer: Option<seq<DataValue>>, reference: Utf8, batch: Code2,
                            lineId: Code2)
  {
    && line == Some(lineId) && answer.Some? && |answer.value| == 2
    && HoldsText(answer.value[0], reference) && HoldsText(answer.value[1], batch)
  }

  /** The reference is the first value, the batch the second one, and the line that of the machine. */
  lemma InputsIff(line: Option<Code2>, answer: Option<seq<DataValue>>, reference: Utf8, batch: Code2, lineId: Code2)
    ensures RequestInputs(line, answer) == Ok((reference, batch, lineId)) <==>
            HasInputs(line, answer, reference, batch, lineId)
  {
  }

  /** When inputs are missing, the error tells the first thing that is wrong. */
  lemma RefusedInputs(line: Option<Code2>, answer: Option<seq<DataValue>>)
    requires RequestInputs(line, answer).Err?
    ensures
      match RequestInputs(line, answer).error
      case NotConfigured => line.None?
      case ReadVariables => line.Some? && answer.None?
      case ReadLength(got) => line.Some? && answer.Some? && got == |answer.value| != 2
      case PartRefValue(_) =>
        && line.Some? && answer.Some? && |answer.value| == 2
        && forall text: Utf8 :: !HoldsText(answer.value[0], text)
      case BatchValue(_) =>
        && line.Some? && answer.Some? && |answer.value| == 2
        && (exists text: Utf8 :: HoldsText(answer.value[0], text))
        && forall batch: Code2 :: !HoldsText(answer.value[1], batch)
      case _ => false
  {
    if RequestInputs(line, answer).error.BatchValue? {
      assert HoldsText(answer.value[0], answer.value[0].value.value.text.value);
    }
  }

  // ---------------------------------------------------------------------------
  // What a request leaves
  // ---------------------------------------------------------------------------

  /** When the inputs are in hand, whether or not an identifier comes out of them and reaches the
      machine, the day has used its serial number, and nothing else in the cache changes; when they
      are not, nothing changes at all. */
  lemma SerialIsUsedIff(store: Store, variables: Variables, unicode: UnicodeReader, node: NodeId, line: Option<Code2>,
                        answer: Option<seq<DataValue>>, today: Date, outcome: WriteOutcome)
    ensures
      var (r, after, written) := Creating(store, variables, unicode, node, line, answer, today, outcome);
      if RequestInputs(line, answer).Ok? then
        && Cache.NextSerial(after, today) == (Cache.NextSerial(store, today) + 1) % U32
        && (forall day: Date :: day != today ==> Cache.NextSerial(after, day) == Cache.NextSerial(store, day))
        && after == store.(serials := after.serials)
      else
        after == store && written == variables && r.Err?
  {
    hide CreatePartIdentifier, RequestInputs, Written, Checked, DateKey;
    forall day: Date | day != today ensures DateKey(day) != DateKey(today) {
      DateKeyIsInjective(day, today);
    }
  }

  /** With its inputs in hand, a request makes the identifier of the next serial number. When there is
      none it writes nothing; otherwise it writes it to the part identifier node and nowhere else, and
      succeeds exactly when the write is applied and answered. */
  lemma IdentifierIsWritten(store: Store, variables: Variables, unicode: UnicodeReader, node: NodeId,
                            line: Option<Code2>, answer: Option<seq<DataValue>>, today: Date, outcome: WriteOutcome,
                            reference: Utf8, batch: Code2, lineId: Code2)
    requires HasInputs(line, answer, reference, batch, lineId)
    ensures
      var (r, _, written) := Creating(store, variables, unicode, node, line, answer, today, outcome);
      match Creation(reference, batch, lineId, today, Cache.NextSerial(store, today)).Identifier(unicode)
      case Err(e) => r == Err(CreateIdentifier(e)) && written == variables
      case Ok(id) =>
        && written == (if 0 in outcome.dropped then variables else variables[node := UaString(Some(id))])
        && (r.Ok? <==> outcome.answered && 0 !in outcome.dropped) && (r.Err? ==> r.error.WritePartId?)
  {
    hide CreatePartIdentifier, Written, RequestInputs, HasInputs;
    InputsIff(line, answer, reference, batch, lineId);
    var c := Creation(reference, batch, lineId, today, Cache.NextSerial(store, today));
    if c.Identifier(unicode).Ok? {
      SingleWrite(variables, node, UaString(Some(c.Identifier(unicode).value)), outcome.dropped);
    }
  }

  /** A successful request leaves at the part identifier node the identifier made of the inputs,
      the date and the serial taken, and no other variable changes. */
  lemma SuccessHandsOver(store: Store, variables: Variables, unicode: UnicodeReader, node: NodeId, line: Option<Code2>,
                         answer: Option<seq<DataValue>>, today: Date, outcome: WriteOutcome)
    returns (reference: Utf8, batch: Code2, lineId: Code2)
    requires Creating(store, variables, unicode, node, line, answer, today, outcome).0.Ok?
    ensures HasInputs(line, answer, reference, batch, lineId)
    ensures RequestInputs(line, answer) == Ok((reference, batch, lineId))
    ensures
      var c := Creation(reference, batch, lineId, today, Cache.NextSerial(store, today));
      && c.Identifier(unicode).Ok?
      && Creating(store, variables, unicode, node, line, answer, today, outcome).2
         == variables[node := UaString(Some(c.Identifier(unicode).value))]
  {
    hide CreatePartIdentifier, Written, RequestInputs, HasInputs;
    var inputs := RequestInputs(line, answer).value;
    reference, batch, lineId := inputs.0, inputs.1, inputs.2;
    InputsIff(line, answer, reference, batch, lineId);
    var c := Creation(reference, batch, lineId, today, Cache.NextSerial(store, today));
    SingleWrite(variables, node, UaString(Some(c.Identifier(unicode).value)), outcome.dropped);
  }

  /** A machine that got an identifier made of an ASCII reference can save with it: a save request
      takes it from the part identifier node, and accepts it as it is. */
  lemma CreatedIdentifierIsSaved(before: Variables, unicode: UnicodeReader, node: NodeId, c: Creation,
                                 dropped: set<nat>)
    requires c.Identifier(unicode).Ok? && IsAscii(c.reference) && 0 !in dropped
    ensures
      var after := Written(before, WritesOf(unicode, node, c), dropped);
      var id := c.Identifier(unicode).value;
      && node in after && IntoAscii(after[node], 23) == Ok(id)
      && |id| == 23 && AllDigitsOrUpper(id) && ValidatePartIdentifier(id) == Ok(())
  {
    hide CreatePartIdentifier, Written, ValidatePartIdentifier, ValidUtf8;
    CreatedIsValid(unicode, c);
    SingleWrite(before, node, UaString(Some(c.Identifier(unicode).value)), dropped);
  }

  // ---------------------------------------------------------------------------
  // Requests within a run of the gateway
  // ---------------------------------------------------------------------------

  /** A creation request, but for the cache it finds. */
  datatype Request = Request(variables: Variables, node: NodeId, line: Option<Code2>, answer: Option<seq<DataValue>>,
                             today: Date, outcome: WriteOutcome)
  {
    function On(cfg: G.Config, store: Store): (Result<(), CreatePartIdError>, Store, Variables) {
      Creating(store, variables, cfg.unicode, node, line, answer, today, outcome)
    }
  }

  /** To the gateway, a request whose inputs are in hand is a creation event, and no other one is
      any. */
  function EventsOf(request: Request): seq<G.Event> {
    match RequestInputs(request.line, request.answer)
    case Err(_) => []
    case Ok((reference, batch, lineId)) => [G.Create(reference, batch, lineId, request.today)]
  }

  lemma RequestIsEvent(cfg: G.Config, run: seq<G.Event>, request: Request)
    requires G.Execute(cfg, run).Some?
    ensures
      var w := G.Execute(cfg, run).value;
      var next := G.Execute(cfg, run + EventsOf(request));
      next.Some? && next.value == w.(store := request.On(cfg, w.store).1, creations := next.value.creations)
  {
    hide G.Execute, RequestInputs, CreatePartIdentifier, Written, Checked, SerialTaken;
    if RequestInputs(request.line, request.answer).Ok? {
      G.StepForward(cfg, run, G.Execute(cfg, run).value, EventsOf(request)[0]);
    } else {
      assert run + [] == run;
    }
  }

  /** What a successful request writes is the identifier of the creation it is. */
  lemma SuccessIsCreation(cfg: G.Config, run: seq<G.Event>, request: Request)
    requires G.Execute(cfg, run).Some? && request.On(cfg, G.Execute(cfg, run).value.store).0.Ok?
    ensures G.Execute(cfg, run + EventsOf(request)).Some?
    ensures
      var w := G.Execute(cfg, run).value;
      var creations := G.Execute(cfg, run + EventsOf(request)).value.creations;
      var written := request.On(cfg, w.store).2;
      && |creations| == |w.creations| + 1 && w.creations <= creations && creations[|w.creations|].today == request.today
      && var id := creations[|w.creations|].Identifier(cfg.unicode);
      && id.Ok? && request.node in written && written[request.node] == UaString(Some(id.value))
  {
    hide G.Execute, RequestInputs, CreatePartIdentifier, Creating, HasInputs;
    var w := G.Execute(cfg, run).value;
    var reference, batch, lineId := SuccessHandsOver(w.store, request.variables, cfg.unicode, request.node,
                                                     request.line, request.answer, request.today, request.outcome);
    G.StepForward(cfg, run, w, EventsOf(request)[0]);
  }

  /** Two requests that succeed on dates less than 100 years apart, whatever happens to the gateway in
      between, never write the same identifier, as long as the day of the second one sees at most
      2^32 creations. */
  lemma IdentifiersDiffer(cfg: G.Config, run: seq<G.Event>, between: seq<G.Event>, first: Request, second: Request)
    requires G.Execute(cfg, run).Some? && first.On(cfg, G.Execute(cfg, run).value.store).0.Ok?
    requires G.Execute(cfg, run + EventsOf(first) + between).Some?
    requires
      var w := G.Execute(cfg, run + EventsOf(first) + between).value;
      && second.On(cfg, w.store).0.Ok?
      && -100 < first.today.year - second.today.year < 100
      && Guarantees.CreationsOn(w.creations, second.today) < U32
    ensures
      var one := first.On(cfg, G.Execute(cfg, run).value.store).2;
      var other := second.On(cfg, G.Execute(cfg, run + EventsOf(first) + between).value.store).2;
      first.node in one && second.node in other && one[first.node] != other[second.node]
  {
    hide G.Execute, Creating, EventsOf, Guarantees.CreationsOn, CreatePartIdentifier;
    var before, later := G.Execute(cfg, run).value, run + EventsOf(first) + between;
    SuccessIsCreation(cfg, run, first);
    Guarantees.CreationsGrow(cfg, run + EventsOf(first), between);
    SuccessIsCreation(cfg, later, second);
    var w := G.Execute(cfg, later).value;
    var all := G.Execute(cfg, later + EventsOf(second)).value.creations;
    assert all == w.creations + [all[|w.creations|]];
    Guarantees.CreationsSnoc(w.creations, all[|w.creations|], second.today);
    Guarantees.IdentifiersAreUnique(cfg, later + EventsOf(second), |before.creations|, |w.creations|);
  }
}
