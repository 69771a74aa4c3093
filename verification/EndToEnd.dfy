/** From a request of a machine to what is saved, created and loaded: what the responses of the
    gateway mean, whatever else happens to it. */
module EndToEnd {
  import opened Wrappers
  import opened AsciiText
  import opened Variants
  import opened PartSheets
  import opened PartIdentifier
  import opened Cache
  import opened SaveRequest
  import opened ReadRequest
  import opened CreateRequest
  import opened Requests
  import opened Server
  import opened Plant
  import opened PlantInvariant
  import Calendar
  import H = Handshake
  import G = Gateway
  import Guarantees

  /** The machine sees its last request succeed. */
  predicate SeesSuccess(m: H.Machine, code: u8) {
    m.request == code && m.response == RESPONSE_SUCCESS
  }

  // ---------------------------------------------------------------------------
  // What a success means
  // ---------------------------------------------------------------------------

  function RanksOf(tickets: seq<Ticket>, request: nat, rank: Ticket -> Option<nat>): set<nat> {
    set k | 0 <= k < |tickets| && tickets[k].request == request && rank(tickets[k]).Some? :: rank(tickets[k]).value
  }

  /** The saves that come of a request. */
  function SavesOf(tickets: seq<Ticket>, request: nat): (saves: set<nat>)
    ensures forall k :: 0 <= k < |tickets| && tickets[k].request == request && tickets[k].commit.Some? ==>
              tickets[k].commit.value in saves
    ensures forall h :: h in saves ==>
              exists k :: 0 <= k < |tickets| && tickets[k].request == request && tickets[k].commit == Some(h)
  {
    RanksOf(tickets, request, (t: Ticket) => t.commit)
  }

  /** The creations that come of a request. */
  function CreationsOf(tickets: seq<Ticket>, request: nat): (creations: set<nat>)
    ensures forall k :: 0 <= k < |tickets| && tickets[k].request == request && tickets[k].creation.Some? ==>
              tickets[k].creation.value in creations
    ensures forall c :: c in creations ==>
              exists k :: 0 <= k < |tickets| && tickets[k].request == request && tickets[k].creation == Some(c)
  {
    RanksOf(tickets, request, (t: Ticket) => t.creation)
  }

  /** A machine that sees a success has had a run of its operation that succeeded, for this request,
      and its variables are as that run left them. */
  lemma SuccessfulRun(site: Site, s: System, code: u8) returns (t: Ticket)
    requires Inv(site, s) && code != 0 && SeesSuccess(s.machine, code)
    ensures s.tickets != [] && t == s.tickets[|s.tickets| - 1]
    ensures s.machine.log != [] && t.request == |s.machine.log| - 1 && t.code == code
    ensures TicketOk(site, s, t) && Shows(site, s, t)
    ensures code == CREATE_CODE ==> EndedWell(t.create)
    ensures code == LOAD_CODE ==> EndedWell(t.load)
    ensures code == SAVE_CODE ==> EndedWell(t.save)
  {
    hide TicketOk, Shows, H.SessionOk, CountsOk, Accounted, NothingShared, HistoryOk, ResponseTo;
    AnsweredIsNotRunning(s.machine);
    t := s.tickets[|s.tickets| - 1];
    assert TicketOk(site, s, t);
    var ops := s.machine.Last().outcomes[|s.machine.Last().outcomes| - 1];
    ResponsesTellRequests(Reported(code), ops);
  }

  lemma AnsweredIsNotRunning(m: H.Machine)
    requires H.Inv(m) && m.Answered()
    ensures !IsRunning(m)
  {
    hide H.Upcoming, H.LogOk;
  }

  /** A machine that is told its save request succeeded has been saved: since it issued the request,
      a save of this machine was committed for it. */
  lemma SuccessMeansSaved(site: Site, start: Variables, run: seq<Event>)
    requires site.Valid() && Play(site, start, run).Some?
    requires SeesSuccess(Play(site, start, run).value.machine, SAVE_CODE)
    ensures
      var s := Play(site, start, run).value;
      var request := |s.machine.log| - 1;
      && 0 <= request < |s.savesAt|
      && exists h ::
           && h in SavesOf(s.tickets, request)
           && s.savesAt[request] <= h < |s.world.history| && s.world.history[h].machine == site.machine
  {
    hide Play, Inv, SavesOf, Shows, IsFound;
    Reached(site, start, run);
    var s := Play(site, start, run).value;
    var t := SuccessfulRun(site, s, SAVE_CODE);
    assert t.commit.value in SavesOf(s.tickets, t.request);
  }

  /** A machine that is told its creation request succeeded has been given an identifier: its part
      identifier node holds the one of a creation that was made for it since it issued the request. */
  lemma SuccessMeansCreated(site: Site, start: Variables, run: seq<Event>)
    requires site.Valid() && Play(site, start, run).Some?
    requires SeesSuccess(Play(site, start, run).value.machine, CREATE_CODE)
    ensures
      var s := Play(site, start, run).value;
      var request := |s.machine.log| - 1;
      && 0 <= request < |s.creationsAt|
      && exists c ::
           && c in CreationsOf(s.tickets, request)
           && s.creationsAt[request] <= c < |s.world.creations|
           && var id := s.world.creations[c].Identifier(site.gateway.unicode);
              id.Ok? && ShowsPart(site, s.variables, id.value)
  {
    hide Play, Inv, CreationsOf, ShowsPart, CreatePartIdentifier, IsFound, ShowsSheet, KeepsPart;
    Reached(site, start, run);
    var s := Play(site, start, run).value;
    var t := SuccessfulRun(site, s, CREATE_CODE);
    assert t.creation.value in CreationsOf(s.tickets, t.request);
  }

  /** The variables of the machine hold the general sheet that was the last one saved for a part
      when there were so many saves, except for the excluded nodes; the part is the one that the
      machine shows, as far as nodes are told apart. */
  ghost predicate HoldsSheet(site: Site, s: System, saves: nat, part: PartId) {
    && saves <= |s.world.history| && G.LastSave(s.world.history[..saves], part).Some?
    && var sheet := G.LastSave(s.world.history[..saves], part).value.general;
    && Loaded(site.load, sheet, s.variables)
    && (DistinctIds(sheet) ==> ShowsPart(site, s.variables, part))
  }

  /** A machine that is told its load request succeeded has been given a sheet: the one last saved
      for its part, by any machine, at some point since it issued the request. */
  lemma SuccessMeansLoaded(site: Site, start: Variables, run: seq<Event>)
    requires site.Valid() && Play(site, start, run).Some?
    requires |Play(site, start, run).value.world.history| <= G.MAX_SAVES
    requires SeesSuccess(Play(site, start, run).value.machine, LOAD_CODE)
    ensures
      var s := Play(site, start, run).value;
      var request := |s.machine.log| - 1;
      && 0 <= request < |s.savesAt|
      && exists saves: nat, part: PartId :: s.savesAt[request] <= saves && HoldsSheet(site, s, saves, part)
  {
    hide Play, Inv, G.LastSave, Loaded, DistinctIds, ShowsPart, G.NamesItsPart, CreatePartIdentifier;
    hide ShowsSheet, WritesFor, Initialize;
    Reached(site, start, run);
    var s := Play(site, start, run).value;
    var t := SuccessfulRun(site, s, LOAD_CODE);
    var found := t.lookup.value;
    var last := G.LastSave(s.world.history[..found.saves], found.part).value;
    SheetIsLoaded(site, s.variables, last.general, found.writes);
    if DistinctIds(last.general) {
      WritesNameThePart(site.gateway, site.load, last, found.writes);
    }
    assert HoldsSheet(site, s, found.saves, found.part);
  }

  lemma SheetIsLoaded(site: Site, variables: Variables, sheet: seq<Item>, writes: seq<WriteValue>)
    requires writes == WritesFor(site.load, CachedItems(sheet)) && ShowsSheet(variables, writes)
    ensures Loaded(site.load, sheet, variables)
  {
    hide LastWrite, WritesFor, ValueIn;
    forall node: NodeId | IsLoaded(site.load, sheet, node)
      ensures node in variables && variables[node] == ValueIn(sheet, node.id).value
    {
      LastWriteIsLoaded(site.load, sheet, node);
    }
  }

  // ---------------------------------------------------------------------------
  // How often
  // ---------------------------------------------------------------------------

  lemma RanksSnoc(tickets: seq<Ticket>, t: Ticket, request: nat, rank: Ticket -> Option<nat>)
    ensures RanksOf(tickets + [t], request, rank) ==
            RanksOf(tickets, request, rank)
            + if t.request == request && rank(t).Some? then {rank(t).value} else {}
  {
    var n := |tickets|;
    assert forall k :: 0 <= k < n ==> (tickets + [t])[k] == tickets[k];
    assert (tickets + [t])[n] == t;
  }

  lemma {:induction false} AtMostAsManyRanks(tickets: seq<Ticket>, request: nat, rank: Ticket -> Option<nat>)
    ensures |RanksOf(tickets, request, rank)| <= TicketsOf(tickets, request)
  {
    hide RanksOf;
    if tickets == [] {
      NoRanks(request, rank);
    } else {
      var n := |tickets| - 1;
      AtMostAsManyRanks(tickets[..n], request, rank);
      RanksSnoc(tickets[..n], tickets[n], request, rank);
      assert tickets[..n] + [tickets[n]] == tickets;
    }
  }

  lemma NoRanks(request: nat, rank: Ticket -> Option<nat>)
    ensures RanksOf([], request, rank) == {}
  {
  }

  lemma TicketsAreBounded(site: Site, start: Variables, run: seq<Event>, request: nat)
    requires site.Valid() && Play(site, start, run).Some?
    requires request < |Play(site, start, run).value.machine.log|
    ensures
      var s := Play(site, start, run).value;
      TicketsOf(s.tickets, request) <= s.machine.log[request].starts <= 1 + s.machine.log[request].lost
  {
    hide Play, H.SessionOk, Accounted, TicketsOk, TicketsOf, CurrentOk, NothingShared, HistoryOk;
    Reached(site, start, run);
    var s := Play(site, start, run).value;
    assert H.RecordOk(s.machine.log[request]);
    assert TicketsOf(s.tickets, request) <= s.machine.log[request].starts;
  }

  /** A request makes the machine saved at most once more than sessions were lost before its
      response was written. */
  lemma SavesAreBounded(site: Site, start: Variables, run: seq<Event>, request: nat)
    requires site.Valid() && Play(site, start, run).Some?
    requires request < |Play(site, start, run).value.machine.log|
    ensures
      var s := Play(site, start, run).value;
      |SavesOf(s.tickets, request)| <= s.machine.log[request].starts <= 1 + s.machine.log[request].lost
  {
    hide Play, TicketsOf, RanksOf;
    TicketsAreBounded(site, start, run, request);
    AtMostAsManyRanks(Play(site, start, run).value.tickets, request, (t: Ticket) => t.commit);
  }

  /** A request makes at most as many creations, and takes at most as many serial numbers. */
  lemma CreationsAreBounded(site: Site, start: Variables, run: seq<Event>, request: nat)
    requires site.Valid() && Play(site, start, run).Some?
    requires request < |Play(site, start, run).value.machine.log|
    ensures
      var s := Play(site, start, run).value;
      |CreationsOf(s.tickets, request)| <= s.machine.log[request].starts <= 1 + s.machine.log[request].lost
  {
    hide Play, TicketsOf, RanksOf;
    TicketsAreBounded(site, start, run, request);
    AtMostAsManyRanks(Play(site, start, run).value.tickets, request, (t: Ticket) => t.creation);
  }

  /** All the saves of the machine are accounted for: each comes of exactly one of its requests, a
      save request, and was committed after that request was issued. */
  lemma EverySaveHasOneRequest(site: Site, start: Variables, run: seq<Event>, h: nat)
    requires site.Valid() && Play(site, start, run).Some?
    requires h < |Play(site, start, run).value.world.history|
    requires Play(site, start, run).value.world.history[h].machine == site.machine
    ensures
      var s := Play(site, start, run).value;
      exists request ::
        && 0 <= request < |s.machine.log| && s.machine.log[request].code == SAVE_CODE
        && request < |s.savesAt| && s.savesAt[request] <= h
        && h in SavesOf(s.tickets, request)
        && forall other: nat :: h in SavesOf(s.tickets, other) ==> other == request
  {
    hide Play, H.Inv, CountsOk, CurrentOk, HistoryOk, IsFound, RanksOf;
    Reached(site, start, run);
    var s := Play(site, start, run).value;
    var k :| 0 <= k < |s.tickets| && s.tickets[k].commit == Some(h);
    assert TicketOk(site, s, s.tickets[k]);
    var request := s.tickets[k].request;
    assert h in SavesOf(s.tickets, request);
    forall other: nat | h in SavesOf(s.tickets, other) ensures other == request {
      var j :| 0 <= j < |s.tickets| && s.tickets[j].request == other && s.tickets[j].commit == Some(h);
      assert j == k;
    }
  }

  // ---------------------------------------------------------------------------
  // What becomes of it
  // ---------------------------------------------------------------------------

  /** From the request to the archive: a machine that is told its save request succeeded has both
      rows of a save committed for it queued or archived, whatever happened since. */
  lemma SuccessIsKept(site: Site, start: Variables, run: seq<Event>, q: QueueTable)
    requires site.Valid() && Play(site, start, run).Some?
    requires |Play(site, start, run).value.world.history| <= G.MAX_SAVES
    requires SeesSuccess(Play(site, start, run).value.machine, SAVE_CODE)
    ensures
      var s := Play(site, start, run).value;
      var request := |s.machine.log| - 1;
      && 0 <= request < |s.savesAt|
      && exists h ::
           && s.savesAt[request] <= h < |s.world.history| && s.world.history[h].machine == site.machine
           && var row := G.RowText(site.gateway, s.world.history[h], q);
              row in s.world.store.Queue(q).Values || row in s.world.LaneOf(q).table
  {
    hide Play, G.Execute, G.RowText, SavesOf;
    var s := Play(site, start, run).value;
    SuccessMeansSaved(site, start, run);
    var request := |s.machine.log| - 1;
    var h :|
      && h in SavesOf(s.tickets, request)
      && s.savesAt[request] <= h < |s.world.history| && s.world.history[h].machine == site.machine;
    WorldIsReached(site, start, run);
    Guarantees.NothingIsLostInAnyRun(site.gateway, GatewayRun(site, start, run), q, h);
  }

  /** Another creation whose identifier could be the same if serials repeated or years wrapped. */
  ghost predicate IsRival(creations: seq<Creation>, c: nat, other: nat)
    requires c < |creations|
  {
    && other < |creations| && other != c
    && -100 < creations[c].today.year - creations[other].today.year < 100
    && Guarantees.CreationsOn(creations, creations[c].today) <= U32
    && Guarantees.CreationsOn(creations, creations[other].today) <= U32
  }

  /** The machine shows the identifier of a creation, and that of none of its rivals. */
  ghost predicate ShowsOnly(site: Site, s: System, c: nat) {
    && c < |s.world.creations|
    && var own := s.world.creations[c].Identifier(site.gateway.unicode);
    && own.Ok? && ShowsPart(site, s.variables, own.value)
    && forall other: nat :: IsRival(s.world.creations, c, other) ==>
         s.world.creations[other].Identifier(site.gateway.unicode) != own
  }

  /** From the request to the part: the identifier that a machine is given is not that of any other
      creation within a century, whoever asked for it, as long as no day sees more than 2^32. */
  lemma SuccessIsUnique(site: Site, start: Variables, run: seq<Event>)
    requires site.Valid() && Play(site, start, run).Some?
    requires SeesSuccess(Play(site, start, run).value.machine, CREATE_CODE)
    ensures
      var s := Play(site, start, run).value;
      && s.machine.log != []
      && exists c :: c in CreationsOf(s.tickets, |s.machine.log| - 1) && ShowsOnly(site, s, c)
  {
    hide Play, G.Execute, CreationsOf, CreatePartIdentifier, ShowsPart, Guarantees.CreationsOn;
    var s := Play(site, start, run).value;
    SuccessMeansCreated(site, start, run);
    var c :|
      && c in CreationsOf(s.tickets, |s.machine.log| - 1) && 0 <= c < |s.world.creations|
      && s.world.creations[c].Identifier(site.gateway.unicode).Ok?
      && ShowsPart(site, s.variables, s.world.creations[c].Identifier(site.gateway.unicode).value);
    WorldIsReached(site, start, run);
    var own := s.world.creations[c].Identifier(site.gateway.unicode);
    forall other: nat | IsRival(s.world.creations, c, other)
      ensures s.world.creations[other].Identifier(site.gateway.unicode) != own
    {
      if s.world.creations[other].Identifier(site.gateway.unicode).Ok? {
        Guarantees.IdentifiersAreUnique(site.gateway, GatewayRun(site, start, run), if other < c then other else c,
                                        if other < c then c else other);
      }
    }
    assert ShowsOnly(site, s, c);
  }

  // ---------------------------------------------------------------------------
  // Success happens
  // ---------------------------------------------------------------------------

  lemma PlayOne(site: Site, start: Variables, run: seq<Event>, s: System, e: Event)
    requires site.Valid() && Play(site, start, run) == Some(s)
    ensures Play(site, start, run + [e]) == Step(site, s, e)
  {
    assert (run + [e])[..|run|] == run;
  }

  lemma {:induction false} AdmittedIsCounted(tickets: seq<Ticket>, k: nat)
    requires k < |tickets| && tickets[k].admitted
    ensures Admissions(tickets) > 0
  {
    if k < |tickets| - 1 {
      AdmittedIsCounted(tickets[..|tickets| - 1], k);
    }
  }

  lemma SavingCommits(site: Site, s: System, values: seq<DataValue>, savedAt: Instant)
    requires site.Valid() && s.world.admitted > 0 && G.AllRepresentable(values)
    requires SaveResult(site, s, Some(values), savedAt).Ok?
    ensures G.Apply(site.gateway, s.world, G.Commit(site.sheets, values, site.machine, savedAt)).Some?
  {
    hide SliceSheets, Saved, Initialize, G.AllRepresentable;
  }

  /** An admitted save of the machine can finish at any later point of any run, and what it ends
      with is what the save request makes of the cache as it then is: its commit is never held up. */
  lemma AdmittedSavesFinish(site: Site, start: Variables, run: seq<Event>, k: nat, readValues: Option<seq<DataValue>>,
                            savedAt: Instant)
    requires site.Valid() && Play(site, start, run).Some?
    requires Open(Play(site, start, run).value, k, SAVE_CODE) && Play(site, start, run).value.tickets[k].admitted
    requires readValues.Some? ==> G.AllRepresentable(readValues.value)
    ensures
      var s := Play(site, start, run).value;
      var r := SaveResult(site, s, readValues, savedAt);
      var next := Play(site, start, run + [FinishSave(k, readValues, savedAt)]);
      && next.Some? && k < |next.value.tickets| && next.value.tickets[k].save == Some(r)
      && next.value.tickets[k].commit == (if r.Ok? then Some(|s.world.history|) else None)
      && |next.value.world.history| == |s.world.history| + if r.Ok? then 1 else 0
  {
    hide Play, Inv, SaveResult, G.AllRepresentable;
    var s := Play(site, start, run).value;
    Reached(site, start, run);
    NotEndedYet(site, s, k);
    InvHistory(site, s);
    AdmittedIsCounted(s.tickets, k);
    PlayOne(site, start, run, s, FinishSave(k, readValues, savedAt));
    SavesAreRead(site, s, readValues, savedAt);
    if SaveResult(site, s, readValues, savedAt).Ok? {
      SavingCommits(site, s, readValues.value, savedAt);
      SavedByItsMachine(site.gateway, s.world, G.Commit(site.sheets, readValues.value, site.machine, savedAt));
    }
  }

  /** A machine whose handler runs the operation of its first request. */
  function RunningOn(code: u8): H.Machine {
    H.Machine(code, 0, [H.Record(code, 1, 0, false, [])],
              Some(H.Session(false, H.Running(code), [], None, code, true)))
  }

  /** The machine has issued its first request, and its operation is under way. */
  function FirstRun(s: System, code: u8): System {
    s.(machine := RunningOn(code), tickets := [NewTicket(0, code)], savesAt := [|s.world.history|],
    creationsAt := [|s.world.creations|])
  }

  predicate IsUntouched(s: System) {
    s.machine == H.AT_REST && s.tickets == [] && s.savesAt == [] && s.creationsAt == []
  }

  /** A step of the machine that starts no run and issues no request. */
  lemma PlayQuietly(site: Site, start: Variables, run: seq<Event>, s: System, e: H.Event, next: H.Machine)
    requires site.Valid() && Play(site, start, run) == Some(s) && H.Step(s.machine, e) == Some(next)
    requires !e.Issue? && !e.Finish? && !StartsRun(s.machine, next)
    ensures Play(site, start, run + [Here(e)]) == Some(s.(machine := next))
  {
    hide Play, H.Step;
    PlayOne(site, start, run, s, Here(e));
  }

  /** The first request is issued. */
  function FirstRequest(s: System, code: u8): System {
    FirstRun(s, code).(machine := H.Machine(code, 0, [H.Record(code, 0, 0, false, [])], None), tickets := [])
  }

  lemma RequestIsIssued(site: Site, start: Variables, before: seq<Event>, s: System, code: u8)
    requires site.Valid() && Play(site, start, before) == Some(s) && IsUntouched(s) && code != 0
    ensures Play(site, start, before + [Here(H.Issue(code))]) == Some(FirstRequest(s, code))
  {
    hide Play;
    PlayOne(site, start, before, s, Here(H.Issue(code)));
    assert [] + [H.Record(code, 0, 0, false, [])] == FirstRequest(s, code).machine.log;
    assert s.savesAt + [|s.world.history|] == FirstRequest(s, code).savesAt;
    assert s.creationsAt + [|s.world.creations|] == FirstRequest(s, code).creationsAt;
  }

  lemma RequestIsFound(site: Site, start: Variables, before: seq<Event>, s: System, code: u8)
    returns (run: seq<Event>)
    requires site.Valid() && Play(site, start, before) == Some(s) && code != 0
    requires s.machine.session.None? && s.machine.request == code && s.machine.response == 0
    ensures
      var session := H.Session(false, H.Checked(code, Some([Reported(0)])), [], None, code, false);
      Play(site, start, run) == Some(s.(machine := s.machine.(session := Some(session))))
  {
    hide Play;
    var m := s.machine;
    var session := H.Session(true, H.Waiting, [], Some(code), code, false);
    PlayQuietly(site, start, before, s, H.StartSession, m.(session := Some(session)));
    run := before + [Here(H.StartSession)];
    var next := s.(machine := m.(session := Some(session)));
    session := session.(queue := [code], slot := None);
    assert [] + [code] == [code];
    PlayQuietly(site, start, run, next, H.Publish, m.(session := Some(session)));
    run, next := run + [Here(H.Publish)], next.(machine := m.(session := Some(session)));
    assert session.queue[1..] == [];
    session := session.(queue := [], isInitial := false, handler := H.Checking(code));
    PlayQuietly(site, start, run, next, H.Take, m.(session := Some(session)));
    run, next := run + [Here(H.Take)], next.(machine := m.(session := Some(session)));
    session := session.(handler := H.Checked(code, Some([Reported(0)])));
    PlayQuietly(site, start, run, next, H.ReadResponse(Some([Reported(0)])), m.(session := Some(session)));
    run := run + [Here(H.ReadResponse(Some([Reported(0)])))];
  }

  lemma RequestRuns(site: Site, start: Variables, before: seq<Event>, s: System, code: u8) returns (run: seq<Event>)
    requires site.Valid() && Play(site, start, before) == Some(s) && IsUntouched(s) && code != 0
    ensures Play(site, start, run) == Some(FirstRun(s, code))
  {
    hide Play;
    RequestIsIssued(site, start, before, s, code);
    var next := FirstRequest(s, code);
    run := RequestIsFound(site, start, before + [Here(H.Issue(code))], next, code);
    var session := H.Session(false, H.Checked(code, Some([Reported(0)])), [], None, code, false);
    PlayOne(site, start, run, next.(machine := next.machine.(session := Some(session))), Here(H.Decide));
    run := run + [Here(H.Decide)];
    assert next.machine.log[0 := H.Record(code, 1, 0, false, [])] == RunningOn(code).log;
    assert [] + [NewTicket(0, code)] == [NewTicket(0, code)];
  }

  lemma OperationEnds(site: Site, s: System, code: u8, ops: Operations)
    requires site.Valid() && s.machine == RunningOn(code) && |s.tickets| == 1 && Agrees(s.tickets[0], ops)
    ensures
      var session := H.Session(false, H.Responding(code, ResponseTo(Reported(code), ops)), [], None, code, true);
      var log := [H.Record(code, 1, 0, false, [ops])];
      Step(site, s, Here(H.Finish(ops))) == Some(s.(machine := H.Machine(code, 0, log, Some(session))))
  {
    hide ResponseTo;
    assert [] + [ops] == [ops];
    assert [H.Record(code, 1, 0, false, [])][0 := H.Record(code, 1, 0, false, [ops])] ==
           [H.Record(code, 1, 0, false, [ops])];
  }

  /** The operation has ended well, and the machine is told so. */
  lemma ResponseComes(site: Site, start: Variables, before: seq<Event>, s: System, code: u8, ops: Operations)
    returns (run: seq<Event>)
    requires site.Valid() && Play(site, start, before) == Some(s) && s.machine == RunningOn(code)
    requires |s.tickets| == 1 && Agrees(s.tickets[0], ops) && Succeeds(code, ops)
    ensures Play(site, start, run).Some? && SeesSuccess(Play(site, start, run).value.machine, code)
  {
    hide Play, ResponseTo, Agrees;
    PlayOne(site, start, before, s, Here(H.Finish(ops)));
    OperationEnds(site, s, code, ops);
    run := before + [Here(H.Finish(ops))];
    ResponsesTellRequests(Reported(code), ops);
    PlayOne(site, start, run, Play(site, start, run).value, Here(H.WriteResponse(true)));
    run := run + [Here(H.WriteResponse(true))];
  }

  lemma NothingPlayed(site: Site, start: Variables)
    requires site.Valid()
    ensures Play(site, start, []) == Some(AtRest(start))
  {
  }

  const ALL_WELL: Operations := Operations(Ok(()), Ok(()), Ok(()))

  lemma FirstSaveIsAdmitted(site: Site, s: System)
    requires site.gateway.threshold > 0 && s.world == G.START && s.tickets == [NewTicket(0, SAVE_CODE)]
    requires IsRunning(s.machine)
    ensures AdmitStep(site, s, 0) == Some(s.(world := G.START.(admitted := 1),
                                             tickets := [NewTicket(0, SAVE_CODE).(admitted := true)]))
  {
    var t := NewTicket(0, SAVE_CODE);
    assert s.tickets[0 := t.(admitted := true)] == [t.(admitted := true)];
    assert G.START.store.Backlog() == 0;
  }

  /** Whatever can be saved in a fresh cache, some run saves it and tells the machine so. */
  lemma SaveHappens(site: Site, start: Variables, values: seq<DataValue>, savedAt: Instant)
    returns (run: seq<Event>)
    requires site.Valid() && site.gateway.threshold > 0 && G.AllRepresentable(values)
    requires SaveResult(site, AtRest(start), Some(values), savedAt).Ok?
    ensures Play(site, start, run).Some? && SeesSuccess(Play(site, start, run).value.machine, SAVE_CODE)
  {
    hide Play, SaveResult, G.AllRepresentable, AdmitStep, FinishSaveStep, G.Apply;
    NothingPlayed(site, start);
    run := RequestRuns(site, start, [], AtRest(start), SAVE_CODE);
    var s := FirstRun(AtRest(start), SAVE_CODE);
    FirstSaveIsAdmitted(site, s);
    PlayOne(site, start, run, s, AdmitSave(0));
    run, s := run + [AdmitSave(0)], AdmitStep(site, s, 0).value;
    SavingValuesAgain(site, AtRest(start), s, Some(values), savedAt);
    AdmittedSavesFinish(site, start, run, 0, Some(values), savedAt);
    SavesAreRead(site, s, Some(values), savedAt);
    PlayOne(site, start, run, s, FinishSave(0, Some(values), savedAt));
    FinishingLeavesMachine(site, s, 0, Some(values), savedAt);
    run := run + [FinishSave(0, Some(values), savedAt)];
    run := ResponseComes(site, start, run, Play(site, start, run).value, SAVE_CODE, ALL_WELL);
  }

  lemma FinishingLeavesMachine(site: Site, s: System, k: nat, readValues: Option<seq<DataValue>>, savedAt: Instant)
    requires site.Valid() && FinishSaveStep(site, s, k, readValues, savedAt).Some?
    ensures
      var next := FinishSaveStep(site, s, k, readValues, savedAt).value;
      && next.machine == s.machine && |next.tickets| == |s.tickets| && k < |s.tickets|
      && next.tickets[k].code == SAVE_CODE
  {
    hide SaveResult, G.Apply, G.AllRepresentable;
  }

  lemma SavingValuesAgain(site: Site, s: System, t: System, readValues: Option<seq<DataValue>>, savedAt: Instant)
    requires site.Valid() && s.world.store == t.world.store
    ensures SaveResult(site, s, readValues, savedAt) == SaveResult(site, t, readValues, savedAt)
  {
    hide SavingValues;
  }

  /** Nothing is dropped, and the answer comes back. */
  const IN_FULL: WriteOutcome := WriteOutcome(true, {})

  lemma FirstSerialIsTaken(site: Site, s: System, answer: Option<seq<DataValue>>, today: Calendar.Date)
    requires s.world == G.START && s.tickets == [NewTicket(0, CREATE_CODE)] && RequestInputs(site.line, answer).Ok?
    ensures
      var (reference, batch, line) := RequestInputs(site.line, answer).value;
      var next := TakeSerialStep(site, s, 0, answer, today);
      && next.Some? && next.value.machine == s.machine
      && next.value.tickets == [NewTicket(0, CREATE_CODE).(creation := Some(0))]
      && next.value.world.creations == [Creation(reference, batch, line, today, 1)]
  {
    hide RequestInputs;
    var t := NewTicket(0, CREATE_CODE);
    assert s.tickets[0 := t.(creation := Some(0))] == [t.(creation := Some(0))];
  }

  lemma IdentifierIsWritten(site: Site, s: System)
    requires IsRunning(s.machine) && s.tickets == [NewTicket(0, CREATE_CODE).(creation := Some(0))]
    requires s.world.creations != [] && s.world.creations[0].Identifier(site.gateway.unicode).Ok?
    ensures
      var next := WriteIdentifierStep(site, s, 0, IN_FULL);
      && next.Some? && next.value.machine == s.machine
      && |next.value.tickets| == 1 && Agrees(next.value.tickets[0], ALL_WELL)
  {
    hide Written, CreatePartIdentifier;
  }

  /** Whatever identifier can be created on a fresh day, some run gives it to the machine. */
  lemma CreationHappens(site: Site, start: Variables, answer: Option<seq<DataValue>>, today: Calendar.Date)
    returns (run: seq<Event>)
    requires site.Valid() && RequestInputs(site.line, answer).Ok?
    requires
      var (reference, batch, line) := RequestInputs(site.line, answer).value;
      Creation(reference, batch, line, today, 1).Identifier(site.gateway.unicode).Ok?
    ensures Play(site, start, run).Some? && SeesSuccess(Play(site, start, run).value.machine, CREATE_CODE)
  {
    hide Play, RequestInputs, CreatePartIdentifier, TakeSerialStep, WriteIdentifierStep, Agrees, SerialTaken;
    NothingPlayed(site, start);
    run := RequestRuns(site, start, [], AtRest(start), CREATE_CODE);
    var s := FirstRun(AtRest(start), CREATE_CODE);
    FirstSerialIsTaken(site, s, answer, today);
    PlayOne(site, start, run, s, TakeSerial(0, answer, today));
    run, s := run + [TakeSerial(0, answer, today)], TakeSerialStep(site, s, 0, answer, today).value;
    IdentifierIsWritten(site, s);
    PlayOne(site, start, run, s, WriteIdentifier(0, IN_FULL));
    run, s := run + [WriteIdentifier(0, IN_FULL)], WriteIdentifierStep(site, s, 0, IN_FULL).value;
    run := ResponseComes(site, start, run, s, CREATE_CODE, ALL_WELL);
  }

  lemma ShownPartIsRequested(site: Site, variables: Variables, part: PartId)
    requires ShowsPart(site, variables, part)
    ensures
      var answer := Some(DataValue(true, Some(variables[site.PartIdNode()])));
      RequestedPart(answer) == Ok(part) && IsPartIdAnswer(site, variables, answer)
  {
  }

  /** A machine that shows a part which was saved can load it. */
  lemma SavedPartIsFound(site: Site, w: G.World, answer: Option<DataValue>, part: PartId)
    requires G.HistoryOk(site.gateway, w) && G.LastSave(w.history, part).Some? && RequestedPart(answer) == Ok(part)
    ensures SheetToWrite(w.store, site.load, answer).Ok?
  {
    hide G.HistoryOk, GetGeneralPartSheet, RequestedPart;
    Guarantees.LookupIsLastSave(site.gateway, w, part);
  }

  lemma PartIsLookedUp(site: Site, s: System, answer: Option<DataValue>)
    requires IsRunning(s.machine) && s.tickets == [NewTicket(0, LOAD_CODE)]
    requires IsPartIdAnswer(site, s.variables, answer) && SheetToWrite(s.world.store, site.load, answer).Ok?
    ensures
      var next := LookUpStep(site, s, 0, answer);
      && next.Some? && next.value.machine == s.machine && |next.value.tickets| == 1
      && var t := next.value.tickets[0];
      && t.open && t.code == LOAD_CODE && t.lookup.Some? && t.load.None?
  {
    hide IsPartIdAnswer, RequestedPart, GetGeneralPartSheet, WritesFor;
  }

  lemma SheetIsWritten(s: System)
    requires IsRunning(s.machine) && |s.tickets| == 1 && Open(s, 0, LOAD_CODE)
    requires s.tickets[0].lookup.Some? && s.tickets[0].load.None?
    ensures
      var next := WriteSheetStep(s, 0, IN_FULL);
      && next.Some? && next.value.machine == s.machine
      && |next.value.tickets| == 1 && Agrees(next.value.tickets[0], ALL_WELL)
  {
    hide Written;
  }

  /** Whatever another machine has saved, a run that leaves this one untouched can go on so that it
      loads it, and is told so. */
  lemma LoadHappens(site: Site, start: Variables, before: seq<Event>, part: PartId) returns (run: seq<Event>)
    requires site.Valid() && Play(site, start, before).Some? && IsUntouched(Play(site, start, before).value)
    requires |Play(site, start, before).value.world.history| <= G.MAX_SAVES
    requires G.LastSave(Play(site, start, before).value.world.history, part).Some?
    requires ShowsPart(site, Play(site, start, before).value.variables, part)
    ensures Play(site, start, run).Some? && SeesSuccess(Play(site, start, run).value.machine, LOAD_CODE)
  {
    hide Play, Inv, G.HistoryOk, G.LastSave, ShowsPart, IsPartIdAnswer, RequestedPart, SheetToWrite, LookUpStep,
         WriteSheetStep, Agrees;
    var s := Play(site, start, before).value;
    Reached(site, start, before);
    InvHistory(site, s);
    run := RequestRuns(site, start, before, s, LOAD_CODE);
    s := FirstRun(s, LOAD_CODE);
    ShownPartIsRequested(site, s.variables, part);
    var answer := Some(DataValue(true, Some(s.variables[site.PartIdNode()])));
    SavedPartIsFound(site, s.world, answer, part);
    PartIsLookedUp(site, s, answer);
    PlayOne(site, start, run, s, LookUp(0, answer));
    run, s := run + [LookUp(0, answer)], LookUpStep(site, s, 0, answer).value;
    SheetIsWritten(s);
    PlayOne(site, start, run, s, WriteSheet(0, IN_FULL));
    run, s := run + [WriteSheet(0, IN_FULL)], WriteSheetStep(s, 0, IN_FULL).value;
    run := ResponseComes(site, start, run, s, LOAD_CODE, ALL_WELL);
  }
}
