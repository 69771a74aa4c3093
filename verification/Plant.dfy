/** A machine that follows the protocol, its server, and the gateway that serves it. The other
    machines, the drains and the archive are whatever else happens to the gateway. */
module Plant {
  import opened Wrappers
  import opened Calendar
  import opened AsciiText
  import opened Variants
  import opened PartSheets
  import opened PartIdentifier
  import opened Cache
  import opened SaveRequest
  import opened ReadRequest
  import opened CreateRequest
  import opened Requests
  import opened Server
  import H = Handshake
  import G = Gateway

  const CREATE_CODE: u8 := 1
  const LOAD_CODE: u8 := 2
  const SAVE_CODE: u8 := 3

  /** The gateway, and what the handler of the machine is made with. */
  datatype Site = Site(gateway: G.Config, machine: Utf8, line: Option<Code2>, sheets: SheetsContext, load: LoadContext)
  {
    predicate Valid() {
      && Initialize(sheets.general, sheets.operation, gateway.partIdNid) == Some(sheets)
      && load.partIdNid == gateway.partIdNid
    }

    function PartIdNode(): NodeId {
      load.Node(load.partIdNid)
    }
  }

  /** What a load has found: the part, how many saves there were, and what is to be written. */
  datatype Lookup = Lookup(part: PartId, saves: nat, writes: seq<WriteValue>)

  /** A run of the operation behind a request, and how far it has come: whether it holds an
      admission, the ranks of the save and of the creation that come of it, what it has looked up,
      and how the operation has ended. Of a run whose session is lost, a transaction that was under
      way may still commit, until the process crashes. */
  datatype Ticket = Ticket(
    request: nat,
    code: u8,
    open: bool,
    admitted: bool,
    commit: Option<nat>,
    save: Option<Result<(), HandleSaveError>>,
    creation: Option<nat>,
    create: Option<Result<(), CreatePartIdError>>,
    lookup: Option<Lookup>,
    load: Option<Result<(), HandleReadError>>)

  predicate EndedWell<E>(r: Option<Result<(), E>>) {
    r.Some? && r.value.Ok?
  }

  function NewTicket(request: nat, code: u8): Ticket {
    Ticket(request, code, true, false, None, None, None, None, None, None)
  }

  /** `savesAt` and `creationsAt` are how many saves and creations there were when each request was
      issued. */
  datatype System = System(
    world: G.World,
    variables: Variables,
    machine: H.Machine,
    tickets: seq<Ticket>,
    savesAt: seq<nat>,
    creationsAt: seq<nat>)
  {
    function WithTicket(k: nat, t: Ticket): System
      requires k < |tickets|
    {
      this.(tickets := tickets[k := t])
    }
  }

  function AtRest(variables: Variables): System {
    System(G.START, variables, H.AT_REST, [], [], [])
  }

  datatype Event =
    // Other machines, drains and insertions.
    | Elsewhere(other: G.Event)
    // The machine, its server, its session and its handler.
    | Here(own: H.Event)
    // The program of the machine writes its variables.
    | Program(variables: Variables)
    // The runs of the operations behind its requests.
    | AdmitSave(ticket: nat)
    | FinishSave(ticket: nat, readValues: Option<seq<DataValue>>, savedAt: Instant)
    | LoseSaveTask(ticket: nat)
    | TakeSerial(ticket: nat, answer: Option<seq<DataValue>>, today: Date)
    | FailSerial(ticket: nat, taskLost: bool)
    | WriteIdentifier(ticket: nat, outcome: WriteOutcome)
    | LookUp(ticket: nat, partAnswer: Option<DataValue>)
    | LoseLookUpTask(ticket: nat)
    | WriteSheet(ticket: nat, outcome: WriteOutcome)
    // The process crashes and comes back.
    | Restart

  // ---------------------------------------------------------------------------
  // The machine and its handler
  // ---------------------------------------------------------------------------

  predicate IsRunning(m: H.Machine) {
    m.session.Some? && m.session.value.handler.Running?
  }

  predicate StartsRun(m: H.Machine, next: H.Machine) {
    IsRunning(next) && !IsRunning(m) && next.log != []
  }

  /** The handler ends a run with what its operation has ended with. */
  predicate Agrees(t: Ticket, ops: Operations) {
    && (t.code == CREATE_CODE ==> t.create == Some(ops.create))
    && (t.code == LOAD_CODE ==> t.load == Some(ops.read))
    && (t.code == SAVE_CODE ==> t.save == Some(ops.save))
  }

  function HereStep(s: System, e: H.Event): Option<System> {
    match H.Step(s.machine, e)
    case None => None
    case Some(next) =>
      if e.Issue? then
        Some(s.(machine := next, savesAt := s.savesAt + [|s.world.history|],
                creationsAt := s.creationsAt + [|s.world.creations|]))
      else if e.Finish? && (s.tickets == [] || !Agrees(s.tickets[|s.tickets| - 1], e.ops)) then None
      else if StartsRun(s.machine, next) then
        Some(s.(machine := next,
                tickets := s.tickets + [NewTicket(|next.log| - 1, next.session.value.handler.found)]))
      else Some(s.(machine := next))
  }

  /** A run that the handler has not left. */
  predicate Live(s: System, k: nat) {
    k == |s.tickets| - 1 && IsRunning(s.machine)
  }

  predicate Open(s: System, k: nat, code: u8) {
    k < |s.tickets| && s.tickets[k].open && s.tickets[k].code == code
  }

  /** How many admissions the runs of the machine hold. */
  function Admissions(tickets: seq<Ticket>): nat {
    if tickets == [] then 0
    else Admissions(tickets[..|tickets| - 1]) + if tickets[|tickets| - 1].admitted then 1 else 0
  }

  /** What happens elsewhere takes no admission of this machine, and is no save of it. */
  predicate IsElsewhere(site: Site, s: System, other: G.Event) {
    && !other.Crash?
    && (other.Commit? ==> other.machine != site.machine)
    && (other.Commit? || other.Abandon? ==> s.world.admitted > Admissions(s.tickets))
  }

  // ---------------------------------------------------------------------------
  // Saves
  // ---------------------------------------------------------------------------

  function AdmitStep(site: Site, s: System, k: nat): Option<System> {
    if !Open(s, k, SAVE_CODE) || !Live(s, k) || s.tickets[k].admitted || s.tickets[k].save.Some? then None
    else
      var t := s.tickets[k];
      match CheckEnqueuing(s.world.store, site.gateway.threshold)
      case Err(refusal) => Some(s.WithTicket(k, t.(save := Some(Err(Enqueuing(refusal))))))
      case Ok(_) =>
        match G.Apply(site.gateway, s.world, G.Admit)
        case None => None
        case Some(w) => Some(s.WithTicket(k, t.(admitted := true)).(world := w))
  }

  /** What a run has to do with the cache once it has read the sheets. */
  function SaveResult(site: Site, s: System, readValues: Option<seq<DataValue>>, savedAt: Instant)
    : Result<(), HandleSaveError>
    requires site.Valid()
  {
    SavingValues(s.world.store, site.gateway.floats, site.sheets, site.machine, savedAt, readValues).0
  }

  lemma SavesAreRead(site: Site, s: System, readValues: Option<seq<DataValue>>, savedAt: Instant)
    requires site.Valid()
    ensures SaveResult(site, s, readValues, savedAt).Ok? ==>
              readValues.Some? && SaveResult(site, s, readValues, savedAt) == Ok(())
  {
  }

  function FinishSaveStep(site: Site, s: System, k: nat, readValues: Option<seq<DataValue>>, savedAt: Instant)
    : Option<System>
    requires site.Valid()
  {
    if !Open(s, k, SAVE_CODE) || !s.tickets[k].admitted then None
    else if readValues.Some? && !G.AllRepresentable(readValues.value) then None
    else
      var t := s.tickets[k];
      var r := SaveResult(site, s, readValues, savedAt);
      if r.Ok? then
        match G.Apply(site.gateway, s.world, G.Commit(site.sheets, readValues.value, site.machine, savedAt))
        case None => None
        case Some(w) =>
          Some(s.WithTicket(k, t.(admitted := false, save := Some(r), commit := Some(|s.world.history|))).(world := w))
      else
        match G.Apply(site.gateway, s.world, G.Abandon)
        case None => None
        case Some(w) => Some(s.WithTicket(k, t.(admitted := false, save := Some(r))).(world := w))
  }

  /** A task that is lost has saved nothing, or has committed its save all the same. */
  function LoseSaveTaskStep(site: Site, s: System, k: nat): Option<System> {
    if !Open(s, k, SAVE_CODE) then None
    else
      var lost := s.tickets[k].(admitted := false, save := Some(Err(CacheSaveTask)));
      if s.tickets[k].admitted then
        match G.Apply(site.gateway, s.world, G.Abandon)
        case None => None
        case Some(w) => Some(s.WithTicket(k, lost).(world := w))
      else if s.tickets[k].commit.Some? && Live(s, k) then Some(s.WithTicket(k, lost))
      else None
  }

  // ---------------------------------------------------------------------------
  // Creations
  // ---------------------------------------------------------------------------

  function TakeSerialStep(site: Site, s: System, k: nat, answer: Option<seq<DataValue>>, today: Date): Option<System> {
    if !Open(s, k, CREATE_CODE) || s.tickets[k].creation.Some? || s.tickets[k].create.Some? then None
    else
      var t := s.tickets[k];
      match RequestInputs(site.line, answer)
      case Err(e) => Some(s.WithTicket(k, t.(create := Some(Err(e)))))
      case Ok((reference, batch, line)) =>
        match G.Apply(site.gateway, s.world, G.Create(reference, batch, line, today))
        case None => None
        case Some(w) => Some(s.WithTicket(k, t.(creation := Some(|s.world.creations|))).(world := w))
  }

  /** A task that is lost has taken no serial, or has taken one all the same. */
  function FailSerialStep(s: System, k: nat, taskLost: bool): Option<System> {
    if !Open(s, k, CREATE_CODE) || (s.tickets[k].creation.Some? && !taskLost) || s.tickets[k].create.Some? then None
    else
      var failure := if taskLost then NextSerialTask else CreatePartIdError.NextSerial;
      Some(s.WithTicket(k, s.tickets[k].(create := Some(Err(failure)))))
  }

  function WriteIdentifierStep(site: Site, s: System, k: nat, outcome: WriteOutcome): Option<System> {
    if !Open(s, k, CREATE_CODE) || !Live(s, k) || s.tickets[k].create.Some? then None
    else if s.tickets[k].creation.None? || s.tickets[k].creation.value >= |s.world.creations| then None
    else
      var t := s.tickets[k];
      var c := s.world.creations[t.creation.value];
      match c.Identifier(site.gateway.unicode)
      case Err(e) => Some(s.WithTicket(k, t.(create := Some(Err(CreateIdentifier(e))))))
      case Ok(_) =>
        var writes := WritesOf(site.gateway.unicode, site.PartIdNode(), c);
        var r := Checked(writes, outcome).MapErr(e => WritePartId(e));
        Some(s.WithTicket(k, t.(create := Some(r))).(variables := Written(s.variables, writes, outcome.dropped)))
  }

  // ---------------------------------------------------------------------------
  // Loads
  // ---------------------------------------------------------------------------

  /** A good answer is the value of the variable. */
  predicate IsPartIdAnswer(site: Site, variables: Variables, answer: Option<DataValue>) {
    answer.Some? && answer.value.isGood && answer.value.value.Some? ==>
      && site.PartIdNode() in variables
      && answer.value.value.value == variables[site.PartIdNode()]
  }

  function LookUpStep(site: Site, s: System, k: nat, answer: Option<DataValue>): Option<System> {
    if !Open(s, k, LOAD_CODE) || !Live(s, k) || s.tickets[k].lookup.Some? || s.tickets[k].load.Some? then None
    else if !IsPartIdAnswer(site, s.variables, answer) then None
    else
      var t := s.tickets[k];
      match SheetToWrite(s.world.store, site.load, answer)
      case Err(e) => Some(s.WithTicket(k, t.(load := Some(Err(e)))))
      case Ok(writes) =>
        var found := Lookup(RequestedPart(answer).value, |s.world.history|, writes);
        Some(s.WithTicket(k, t.(lookup := Some(found))))
  }

  function LoseLookUpTaskStep(s: System, k: nat): Option<System> {
    if !Open(s, k, LOAD_CODE) || s.tickets[k].lookup.Some? || s.tickets[k].load.Some? then None
    else Some(s.WithTicket(k, s.tickets[k].(load := Some(Err(CacheGetTask)))))
  }

  function WriteSheetStep(s: System, k: nat, outcome: WriteOutcome): Option<System> {
    if !Open(s, k, LOAD_CODE) || !Live(s, k) || s.tickets[k].lookup.None? || s.tickets[k].load.Some? then None
    else
      var t := s.tickets[k];
      var writes := t.lookup.value.writes;
      var r := Checked(writes, outcome).MapErr(e => WritePartSheet(e));
      Some(s.WithTicket(k, t.(load := Some(r))).(variables := Written(s.variables, writes, outcome.dropped)))
  }

  // ---------------------------------------------------------------------------
  // The steps of an operation make the operation
  // ---------------------------------------------------------------------------

  /** A save that is refused is one that a save request refuses; one that finishes makes of the cache
      and of its result what the rest of a save request does. */
  lemma SaveStepsAreSaving(site: Site, s: System, k: nat, others: Store -> Store, readValues: Option<seq<DataValue>>,
                           savedAt: Instant)
    requires site.Valid() && k < |s.tickets|
    ensures
      var admitted := AdmitStep(site, s, k);
      var (r, store) := Saving(s.world.store, others, site.gateway.threshold, site.gateway.floats, site.sheets,
                               site.machine, savedAt, readValues);
      admitted.Some? && !admitted.value.tickets[k].admitted ==>
        admitted.value.tickets[k].save == Some(r) && admitted.value.world.store == store == s.world.store
    ensures
      var finished := FinishSaveStep(site, s, k, readValues, savedAt);
      var (r, store) :=
        SavingValues(s.world.store, site.gateway.floats, site.sheets, site.machine, savedAt, readValues);
      finished.Some? ==> finished.value.tickets[k].save == Some(r) && finished.value.world.store == store
  {
    hide SliceSheets, Saved, Initialize, G.AllRepresentable;
  }

  /** Taking a serial number and, some time later, writing the identifier makes a creation request. */
  lemma CreateStepsAreCreating(site: Site, s: System, later: System, k: nat, answer: Option<seq<DataValue>>,
                               today: Date, outcome: WriteOutcome)
    requires TakeSerialStep(site, s, k, answer, today).Some?
    requires
      var taken := TakeSerialStep(site, s, k, answer, today).value;
      && k < |later.tickets| && later.tickets[k] == taken.tickets[k]
      && taken.world.creations <= later.world.creations
    ensures
      var taken := TakeSerialStep(site, s, k, answer, today).value;
      var (r, store, variables) := Creating(s.world.store, later.variables, site.gateway.unicode, site.PartIdNode(),
                                            site.line, answer, today, outcome);
      && taken.world.store == store
      && (taken.tickets[k].create.Some? ==> taken.tickets[k].create == Some(r) && variables == later.variables)
      && (WriteIdentifierStep(site, later, k, outcome).Some? ==>
            var next := WriteIdentifierStep(site, later, k, outcome).value;
            next.tickets[k].create == Some(r) && next.variables == variables)
  {
    hide RequestInputs, CreatePartIdentifier, Written, Checked, SerialTaken, Cache.NextSerial;
  }

  /** Looking up a sheet and, some time later, writing it makes a load request. */
  lemma LoadStepsAreLoading(site: Site, s: System, later: System, k: nat, answer: Option<DataValue>,
                            outcome: WriteOutcome)
    requires LookUpStep(site, s, k, answer).Some?
    requires k < |later.tickets| && later.tickets[k] == LookUpStep(site, s, k, answer).value.tickets[k]
    ensures
      var found := LookUpStep(site, s, k, answer).value;
      var (r, variables) := Loading(s.world.store, later.variables, site.load, answer, outcome);
      && found.world == s.world && found.variables == s.variables
      && (found.tickets[k].load.Some? ==> found.tickets[k].load == Some(r) && variables == later.variables)
      && (WriteSheetStep(later, k, outcome).Some? ==>
            var next := WriteSheetStep(later, k, outcome).value;
            next.tickets[k].load == Some(r) && next.variables == variables)
  {
    hide RequestedPart, GetGeneralPartSheet, WritesFor, Written, Checked, IsPartIdAnswer;
  }

  // ---------------------------------------------------------------------------
  // Runs
  // ---------------------------------------------------------------------------

  function Closed(tickets: seq<Ticket>): (closed: seq<Ticket>)
    ensures |closed| == |tickets|
    ensures forall k :: 0 <= k < |tickets| ==> closed[k] == tickets[k].(open := false, admitted := false)
  {
    seq(|tickets|, k requires 0 <= k < |tickets| => tickets[k].(open := false, admitted := false))
  }

  function Restarted(s: System): System {
    var machine := match H.SessionLost(s.machine) case None => s.machine case Some(left) => left;
    s.(world := G.Crashed(s.world), machine := machine, tickets := Closed(s.tickets))
  }

  function ElsewhereStep(site: Site, s: System, other: G.Event): Option<System> {
    if !IsElsewhere(site, s, other) then None
    else
      match G.Apply(site.gateway, s.world, other)
      case None => None
      case Some(w) => Some(s.(world := w))
  }

  function Step(site: Site, s: System, e: Event): Option<System>
    requires site.Valid()
  {
    match e
    case Elsewhere(other) => ElsewhereStep(site, s, other)
    case Here(own) => HereStep(s, own)
    case Program(variables) => if s.machine.Ready() then Some(s.(variables := variables)) else None
    case AdmitSave(k) => AdmitStep(site, s, k)
    case FinishSave(k, readValues, savedAt) => FinishSaveStep(site, s, k, readValues, savedAt)
    case LoseSaveTask(k) => LoseSaveTaskStep(site, s, k)
    case TakeSerial(k, answer, today) => TakeSerialStep(site, s, k, answer, today)
    case FailSerial(k, taskLost) => FailSerialStep(s, k, taskLost)
    case WriteIdentifier(k, outcome) => WriteIdentifierStep(site, s, k, outcome)
    case LookUp(k, answer) => LookUpStep(site, s, k, answer)
    case LoseLookUpTask(k) => LoseLookUpTaskStep(s, k)
    case WriteSheet(k, outcome) => WriteSheetStep(s, k, outcome)
    case Restart => Some(Restarted(s))
  }

  function Play(site: Site, start: Variables, run: seq<Event>): Option<System>
    requires site.Valid()
  {
    if run == [] then Some(AtRest(start))
    else
      match Play(site, start, run[..|run| - 1])
      case None => None
      case Some(s) => Step(site, s, run[|run| - 1])
  }

  // ---------------------------------------------------------------------------
  // The gateway on its own
  // ---------------------------------------------------------------------------

  /** What an event is to the gateway: one of its events, or nothing. */
  function GatewayEvents(site: Site, s: System, e: Event): seq<G.Event>
    requires site.Valid()
  {
    match e
    case Elsewhere(other) => [other]
    case AdmitSave(_) => if CheckEnqueuing(s.world.store, site.gateway.threshold).Ok? then [G.Admit] else []
    case FinishSave(_, readValues, savedAt) =>
      if readValues.Some? && SaveResult(site, s, readValues, savedAt).Ok?
      then [G.Commit(site.sheets, readValues.value, site.machine, savedAt)] else [G.Abandon]
    case LoseSaveTask(k) => if k < |s.tickets| && s.tickets[k].admitted then [G.Abandon] else []
    case TakeSerial(_, answer, today) =>
      (match RequestInputs(site.line, answer)
       case Err(_) => []
       case Ok((reference, batch, line)) => [G.Create(reference, batch, line, today)])
    case Restart => [G.Crash]
    case _ => []
  }

  function GatewayRun(site: Site, start: Variables, run: seq<Event>): seq<G.Event>
    requires site.Valid()
  {
    if run == [] then []
    else
      var before := run[..|run| - 1];
      match Play(site, start, before)
      case None => []
      case Some(s) => GatewayRun(site, start, before) + GatewayEvents(site, s, run[|run| - 1])
  }

  lemma StepOfWorld(site: Site, s: System, e: Event)
    requires site.Valid() && Step(site, s, e).Some?
    ensures
      var w := Step(site, s, e).value.world;
      var events := GatewayEvents(site, s, e);
      || (events == [] && w == s.world)
      || (|events| == 1 && G.Apply(site.gateway, s.world, events[0]) == Some(w))
  {
    hide G.SaveOf, G.Committed, G.Created, G.Snapshot, G.Drained, H.Step, RequestInputs, SheetToWrite, SliceSheets,
         Saved, CheckEnqueuing, Written, Checked, CreatePartIdentifier;
    if e.Elsewhere? || e.AdmitSave? || e.FinishSave? || e.LoseSaveTask? || e.TakeSerial? {
      hide G.Apply;
    }
  }

  /** What the gateway goes through is one of its runs, so all that holds of these holds here. */
  lemma {:induction false} WorldIsReached(site: Site, start: Variables, run: seq<Event>)
    requires site.Valid() && Play(site, start, run).Some?
    ensures G.Execute(site.gateway, GatewayRun(site, start, run)) == Some(Play(site, start, run).value.world)
  {
    hide Step, G.Apply, GatewayEvents;
    if run != [] {
      var before, e := run[..|run| - 1], run[|run| - 1];
      var s := Play(site, start, before).value;
      WorldIsReached(site, start, before);
      StepOfWorld(site, s, e);
      var events := GatewayEvents(site, s, e);
      if events == [] {
        assert GatewayRun(site, start, before) + [] == GatewayRun(site, start, before);
      } else {
        G.StepForward(site.gateway, GatewayRun(site, start, before), s.world, events[0]);
        assert [events[0]] == events;
      }
    }
  }
}
