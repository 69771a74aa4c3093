/** What the gateway answers to the requests of a machine. */
module Requests {
  import opened Wrappers
  import opened Variants
  import opened SaveRequest
  import opened ReadRequest
  import opened CreateRequest

  const RESPONSE_RESET: u8 := 0
  const RESPONSE_SUCCESS: u8 := 1

  datatype TraceabilityRequest = Reset | CreatePartId | ReadPartSheet | SavePartSheets

  function FromRepr(code: u8): Option<TraceabilityRequest> {
    match code
    case 0 => Some(Reset)
    case 1 => Some(TraceabilityRequest.CreatePartId)
    case 2 => Some(ReadPartSheet)
    case 3 => Some(SavePartSheets)
    case _ => None
  }

  datatype HandleRequestError =
    | BadValue(cause: ValueError)
    | UnknownValue(code: u8)
    | CreateFailed(create: CreatePartIdError)
    | ReadFailed(read: HandleReadError)
    | SaveFailed(save: HandleSaveError)

  function ToResponseCode(e: HandleRequestError): u8 {
    match e
    case BadValue(_) => 91
    case UnknownValue(_) => 92
    case CreateFailed(create) =>
      (match create
       case NotConfigured => 11
       case ReadVariables => 12
       case ReadLength(_) => 12
       case PartRefValue(_) => 13
       case BatchValue(_) => 14
       case NextSerial => 15
       case NextSerialTask => 15
       case CreateIdentifier(_) => 16
       case WritePartId(_) => 17)
    case ReadFailed(read) =>
      (match read
       case ReadPartId => 21
       case PartIdValue(_) => 22
       case CacheGet(_) => 23
       case CacheGetTask => 23
       case CacheMissing(_) => 24
       case WritePartSheet(_) => 25)
    case SaveFailed(save) =>
      (match save
       case ReadPartSheets => 31
       case ReadLength(_, _) => 31
       case PartSheetValue(_, _) => 32
       case PartIdValue(_) => 33
       case InvalidPartId(_, _) => 33
       case CacheSave(_) => 34
       case CacheSaveTask => 34
       case Enqueuing(_) => 35)
  }

  /** How the operations behind the requests end, when they are run. */
  datatype Operations = Operations(
    create: Result<(), CreatePartIdError>,
    read: Result<(), HandleReadError>,
    save: Result<(), HandleSaveError>)

  /** A number out of a byte value. */
  function IntoByte(d: DataValue): Result<u8, ValueError> {
    match IntoVariant(d)
    case Err(e) => Err(e)
    case Ok(v) => if v.Byte? then Ok(v.octet) else Err(InvalidType)
  }

  function HandleRequest(value: DataValue, ops: Operations): Result<u8, HandleRequestError> {
    var code :- IntoByte(value).MapErr(e => BadValue(e));
    match FromRepr(code)
    case None => Err(UnknownValue(code))
    case Some(Reset) => Ok(RESPONSE_RESET)
    case Some(CreatePartId) =>
      if ops.create.Err? then Err(CreateFailed(ops.create.error)) else Ok(RESPONSE_SUCCESS)
    case Some(ReadPartSheet) =>
      if ops.read.Err? then Err(ReadFailed(ops.read.error)) else Ok(RESPONSE_SUCCESS)
    case Some(SavePartSheets) =>
      if ops.save.Err? then Err(SaveFailed(ops.save.error)) else Ok(RESPONSE_SUCCESS)
  }

  /** The response to a request value, errors included. */
  function ResponseTo(value: DataValue, ops: Operations): u8 {
    match HandleRequest(value, ops)
    case Ok(code) => code
    case Err(e) => ToResponseCode(e)
  }

  /** A byte variable as its server reports it. */
  function Reported(code: u8): DataValue {
    DataValue(true, Some(Byte(code)))
  }

  predicate Succeeds(code: u8, ops: Operations) {
    || (code == 1 && ops.create.Ok?)
    || (code == 2 && ops.read.Ok?)
    || (code == 3 && ops.save.Ok?)
  }

  /** 0 answers a reset and nothing else, 1 answers a success and nothing else; any other response
      tells which request it answers, or that there was none. */
  lemma ResponsesTellRequests(value: DataValue, ops: Operations)
    ensures
      var response := ResponseTo(value, ops);
      match IntoByte(value)
      case Err(_) => response == 91
      case Ok(code) =>
        && (response == 0 <==> code == 0)
        && (response == 1 <==> Succeeds(code, ops))
        && (11 <= response <= 17 <==> code == 1 && ops.create.Err?)
        && (21 <= response <= 25 <==> code == 2 && ops.read.Err?)
        && (31 <= response <= 35 <==> code == 3 && ops.save.Err?)
        && (response == 92 <==> code > 3)
  {
  }

  // ---------------------------------------------------------------------------
  // The handler
  // ---------------------------------------------------------------------------

  /** Whether the request found when subscribing is taken as answered, given what the server
      returns when asked for its response. A reset never is, and a failed read means it is. */
  function IsInitialRequestAnswered(value: DataValue, read: Option<seq<DataValue>>): bool {
    if IntoByte(value) == Ok(RESPONSE_RESET) then false
    else
      match read
      case None => true
      case Some(values) =>
        if |values| != 1 then true
        else IntoByte(values[0]) != Ok(RESPONSE_RESET)
  }

  /** The request found when subscribing counts as answered exactly when it is not a reset, and the
      server does not answer with a single response, good and reset. */
  lemma InitialRequestAnsweredIff(value: DataValue, read: Option<seq<DataValue>>)
    ensures IsInitialRequestAnswered(value, read) <==>
            value != DataValue(true, Some(Byte(0))) && read != Some([DataValue(true, Some(Byte(0)))])
  {
    if read.Some? && |read.value| == 1 {
      assert read.value == [read.value[0]];
    }
  }

  /** What a handler writes to the response variable. */
  function Replies(values: seq<DataValue>, read: Option<seq<DataValue>>, ops: seq<Operations>): (codes: seq<u8>)
    requires |ops| == |values|
  {
    if values == [] then []
    else
      var n := |values| - 1;
      var before := Replies(values[..n], read, ops[..n]);
      if n == 0 && IsInitialRequestAnswered(values[0], read) then before
      else before + [ResponseTo(values[n], ops[n])]
  }

  /** Every request value gets one response, in order, except for the first one when it has been
      answered before. */
  lemma {:induction false} OneReplyEach(values: seq<DataValue>, read: Option<seq<DataValue>>, ops: seq<Operations>)
    requires |ops| == |values|
    ensures
      var codes := Replies(values, read, ops);
      var skipped := if values != [] && IsInitialRequestAnswered(values[0], read) then 1 else 0;
      && |codes| == |values| - skipped
      && forall i :: 0 <= i < |codes| ==> codes[i] == ResponseTo(values[skipped + i], ops[skipped + i])
  {
    hide ResponseTo, IsInitialRequestAnswered;
    if values != [] {
      var n := |values| - 1;
      OneReplyEach(values[..n], read, ops[..n]);
    }
  }
}
