/** What every step of a machine and the gateway keeps: how the runs of its operations stand to its
    requests, to the saves and creations of the gateway, and to its variables. */
module PlantInvariant {
  import opened Wrappers
  import opened Bytes
  import opened AsciiText
  import opened Variants
  import opened PartSheets
  import opened PartIdentifier
  import opened Cache
  import opened SaveRequest
  import opened ReadRequest
  import opened CreateRequest
  import opened Requests
  import opened Server
  import opened Plant
  import Calendar
  import H = Handshake
  import G = Gateway
  import Guarantees

  // ---------------------------------------------------------------------------
  // The invariant
  // ---------------------------------------------------------------------------

  ghost predicate IssuesOk(s: System) {
    && |s.savesAt| == |s.machine.log| == |s.creationsAt|
    && forall i :: 0 <= i < |s.machine.log| ==>
         s.savesAt[i] <= |s.world.history| && s.creationsAt[i] <= |s.world.creations|
  }

  /** What a load finds is the general sheet of the last save of the part, at the time. */
  ghost predicate IsFound(site: Site, history: seq<Save>, found: Lookup) {
    var last := G.LastSave(history, found.part);
    && last.Some? && last.value.part == found.part && G.NamesItsPart(site.gateway, last.value)
    && found.writes == WritesFor(site.load, CachedItems(last.value.general))
  }

  ghost predicate SaveTicketOk(site: Site, s: System, t: Ticket)
    requires t.request < |s.savesAt|
  {
    && (t.commit.Some? ==>
          && t.code == SAVE_CODE && s.savesAt[t.request] <= t.commit.value < |s.world.history|
          && s.world.history[t.commit.value].machine == site.machine)
    && (t.commit.Some? ==> t.save.Some?) && (EndedWell(t.save) ==> t.commit.Some?)
    && (t.admitted ==> t.code == SAVE_CODE && t.save.None?)
  }

  ghost predicate CreateTicketOk(s: System, t: Ticket)
    requires t.request < |s.creationsAt|
  {
    && (t.creation.Some? ==>
          t.code == CREATE_CODE && s.creationsAt[t.request] <= t.creation.value < |s.world.creations|)
    && (EndedWell(t.create) ==> t.creation.Some?)
  }

  ghost predicate LoadTicketOk(site: Site, s: System, t: Ticket)
    requires t.request < |s.savesAt|
  {
    && (t.lookup.Some? ==>
          && t.code == LOAD_CODE && s.savesAt[t.request] <= t.lookup.value.saves <= |s.world.history|
          && (|s.world.history| <= G.MAX_SAVES ==>
                IsFound(site, s.world.history[..t.lookup.value.saves], t.lookup.value)))
    && (EndedWell(t.load) ==> t.lookup.Some?)
  }

  ghost predicate TicketOk(site: Site, s: System, t: Ticket) {
    && t.request < |s.machine.log| && s.machine.log[t.request].code == t.code
    && t.request < |s.savesAt| && t.request < |s.creationsAt|
    && SaveTicketOk(site, s, t) && CreateTicketOk(s, t) && LoadTicketOk(site, s, t)
  }

  ghost predicate TicketsOk(site: Site, s: System) {
    forall k :: 0 <= k < |s.tickets| ==> TicketOk(site, s, s.tickets[k])
  }

  /** No two tickets share a save or a creation. */
  ghost predicate NothingShared(tickets: seq<Ticket>) {
    forall j, k :: 0 <= j < k < |tickets| ==>
      && (tickets[j].commit.Some? ==> tickets[j].commit != tickets[k].commit)
      && (tickets[j].creation.Some? ==> tickets[j].creation != tickets[k].creation)
  }

  /** Every save of the machine is the save of one of its tickets. */
  ghost predicate Accounted(site: Site, s: System) {
    forall h :: 0 <= h < |s.world.history| && s.world.history[h].machine == site.machine ==>
      exists k :: 0 <= k < |s.tickets| && s.tickets[k].commit == Some(h)
  }

  function TicketsOf(tickets: seq<Ticket>, request: nat): nat {
    if tickets == [] then 0
    else TicketsOf(tickets[..|tickets| - 1], request) + if tickets[|tickets| - 1].request == request then 1 else 0
  }

  ghost predicate CountsOk(s: System) {
    forall i :: 0 <= i < |s.machine.log| ==> TicketsOf(s.tickets, i) <= s.machine.log[i].starts
  }

  ghost predicate AdmissionsOk(s: System) {
    Admissions(s.tickets) <= s.world.admitted
  }

  ghost predicate ShowsPart(site: Site, variables: Variables, part: bytes) {
    && site.PartIdNode() in variables && variables[site.PartIdNode()].UaString?
    && variables[site.PartIdNode()].text == Some(part)
  }

  ghost predicate ShowsSheet(variables: Variables, writes: seq<WriteValue>) {
    forall node :: LastWrite(writes, node).Some? ==>
      node in variables && variables[node] == LastWrite(writes, node).value
  }

  /** Writing what was found gives the part identifier node no other value. */
  ghost predicate KeepsPart(site: Site, found: Lookup) {
    forall j :: 0 <= j < |found.writes| && found.writes[j].node == site.PartIdNode() ==>
      NamesPart(found.writes[j].value, found.part)
  }

  /** What the variables of the machine show of the last run of its operation. */
  ghost predicate Shows(site: Site, s: System, t: Ticket) {
    && (EndedWell(t.create) ==>
          && t.creation.Some? && t.creation.value < |s.world.creations|
          && var id := s.world.creations[t.creation.value].Identifier(site.gateway.unicode);
             id.Ok? && ShowsPart(site, s.variables, id.value))
    && (t.lookup.Some? && t.load.None? ==> ShowsPart(site, s.variables, t.lookup.value.part))
    && (t.lookup.Some? && EndedWell(t.load) ==>
          && ShowsSheet(s.variables, t.lookup.value.writes)
          && (KeepsPart(site, t.lookup.value) ==> ShowsPart(site, s.variables, t.lookup.value.part)))
  }

  /** The handler runs an operation, or responds with how one ended, or the response is there. */
  predicate IsBusy(m: H.Machine) {
    || IsRunning(m)
    || (m.session.Some? && m.session.value.handler.Responding? && m.session.value.handler.found != 0)
    || m.Answered()
  }

  predicate LastEnded(m: H.Machine, t: Ticket) {
    m.log != [] && m.Last().outcomes != [] && Agrees(t, m.Last().outcomes[|m.Last().outcomes| - 1])
  }

  /** The last ticket is that of the run. */
  ghost predicate CurrentOk(site: Site, s: System) {
    IsBusy(s.machine) ==>
      && s.tickets != [] && s.machine.log != []
      && var last := s.tickets[|s.tickets| - 1];
      && last.request == |s.machine.log| - 1 && last.code == s.machine.Last().code
      && Shows(site, s, last) && (!IsRunning(s.machine) ==> LastEnded(s.machine, last))
  }

  ghost predicate HistoryOk(site: Site, w: G.World) {
    |w.history| <= G.MAX_SAVES ==> G.HistoryOk(site.gateway, w)
  }

  ghost predicate Inv(site: Site, s: System) {
    && H.Inv(s.machine) && IssuesOk(s) && TicketsOk(site, s) && NothingShared(s.tickets) && Accounted(site, s)
    && CountsOk(s) && AdmissionsOk(s) && CurrentOk(site, s) && HistoryOk(site, s.world)
  }

  // ---------------------------------------------------------------------------
  // Growth
  // ---------------------------------------------------------------------------

  /** Saves, creations and requests are only ever added. */
  ghost predicate Grows(s: System, next: System) {
    && s.world.history <= next.world.history && s.world.creations <= next.world.creations
    && |s.machine.log| <= |next.machine.log|
    && (forall i :: 0 <= i < |s.machine.log| ==> next.machine.log[i].code == s.machine.log[i].code)
    && s.savesAt <= next.savesAt && s.creationsAt <= next.creationsAt
  }

  lemma TicketGrows(site: Site, s: System, next: System, t: Ticket)
    requires TicketOk(site, s, t) && Grows(s, next)
    ensures TicketOk(site, next, t)
  {
    hide IsFound;
    if t.lookup.Some? {
      assert next.world.history[..t.lookup.value.saves] == s.world.history[..t.lookup.value.saves];
    }
  }

  lemma ShowsGrows(site: Site, s: System, next: System, t: Ticket)
    requires Shows(site, s, t) && Grows(s, next) && next.variables == s.variables
    ensures Shows(site, next, t)
  {
    hide ShowsSheet, KeepsPart, ShowsPart, CreatePartIdentifier;
  }

  lemma TicketsSnoc(tickets: seq<Ticket>, t: Ticket, request: nat)
    ensures TicketsOf(tickets + [t], request) == TicketsOf(tickets, request) + if t.request == request then 1 else 0
    ensures Admissions(tickets + [t]) == Admissions(tickets) + if t.admitted then 1 else 0
  {
    assert (tickets + [t])[..|tickets|] == tickets;
  }

  lemma {:induction false} TicketsUpdate(tickets: seq<Ticket>, k: nat, t: Ticket, request: nat)
    requires k < |tickets| && t.request == tickets[k].request
    ensures TicketsOf(tickets[k := t], request) == TicketsOf(tickets, request)
    ensures Admissions(tickets[k := t]) + (if tickets[k].admitted then 1 else 0) ==
            Admissions(tickets) + (if t.admitted then 1 else 0)
  {
    var n := |tickets| - 1;
    if k < n {
      assert tickets[k := t][..n] == tickets[..n][k := t];
      TicketsUpdate(tickets[..n], k, t, request);
    } else {
      assert tickets[k := t][..n] == tickets[..n];
    }
  }

  lemma {:induction false} NoTicketsYet(tickets: seq<Ticket>, request: nat)
    requires forall k :: 0 <= k < |tickets| ==> tickets[k].request < request
    ensures TicketsOf(tickets, request) == 0
  {
    if tickets != [] {
      NoTicketsYet(tickets[..|tickets| - 1], request);
    }
  }

  lemma {:induction false} ClosedCounts(tickets: seq<Ticket>, request: nat)
    ensures TicketsOf(Closed(tickets), request) == TicketsOf(tickets, request)
    ensures Admissions(Closed(tickets)) == 0
  {
    if tickets != [] {
      var n := |tickets| - 1;
      assert Closed(tickets)[..n] == Closed(tickets[..n]);
      ClosedCounts(tickets[..n], request);
    }
  }

  lemma WorldGrows(site: Site, w: G.World, e: G.Event)
    requires G.Apply(site.gateway, w, e).Some?
    ensures w.history <= G.Apply(site.gateway, w, e).value.history
    ensures w.creations <= G.Apply(site.gateway, w, e).value.creations
    ensures HistoryOk(site, w) ==> HistoryOk(site, G.Apply(site.gateway, w, e).value)
  {
    hide G.Apply, G.HistoryOk, Cache.NextSerial;
    G.HistoryGrows(site.gateway, w, e);
    if e.Create? {
      Guarantees.CreateEvent(site.gateway, w, e);
    } else {
      Guarantees.OtherStepsLeaveSerials(site.gateway, w, e);
    }
    if HistoryOk(site, w) && |G.Apply(site.gateway, w, e).value.history| <= G.MAX_SAVES {
      G.StepKeepsHistory(site.gateway, w, e);
    }
  }

  lemma AdmittedAfter(site: Site, w: G.World, e: G.Event)
    requires G.Apply(site.gateway, w, e).Some? && !e.Crash?
    ensures
      var next := G.Apply(site.gateway, w, e).value;
      next.admitted ==
      if e.Admit? then w.admitted + 1
      else if e.Commit? || e.Abandon? then w.admitted - 1
      else w.admitted
    ensures e.Commit? || e.Abandon? ==> w.admitted > 0
  {
    hide G.SaveOf, G.Committed, QueueBatch, Cache.NextSerial, CheckEnqueuing;
    if e.Commit? {
      G.CommitEvent(site.gateway, w, e);
      CommitTakesAdmission(site, w, G.SaveOf(site.gateway, e.ctx, e.values, e.machine, e.savedAt).value);
    }
  }

  lemma CommitTakesAdmission(site: Site, w: G.World, save: Save)
    requires G.Committed(site.gateway, w, save).Some?
    ensures w.admitted > 0 && G.Committed(site.gateway, w, save).value.admitted == w.admitted - 1
  {
    hide Saved;
  }

  lemma SavedByItsMachine(cfg: G.Config, w: G.World, e: G.Event)
    requires G.Apply(cfg, w, e).Some? && e.Commit?
    ensures G.SaveOf(cfg, e.ctx, e.values, e.machine, e.savedAt).Some?
    ensures
      var save := G.SaveOf(cfg, e.ctx, e.values, e.machine, e.savedAt).value;
      save.machine == e.machine && G.Apply(cfg, w, e).value.history == w.history + [save]
  {
    hide SliceSheets, Initialize, G.Committed;
    G.CommitEvent(cfg, w, e);
    G.CommitStore(cfg, w, G.SaveOf(cfg, e.ctx, e.values, e.machine, e.savedAt).value);
  }

  // ---------------------------------------------------------------------------
  // Steps of tickets
  // ---------------------------------------------------------------------------

  /** A ticket goes on: it may take the next save of the machine, or the next creation. */
  ghost predicate GoesOn(s: System, next: System, old_: Ticket, t: Ticket) {
    && t.request == old_.request && t.code == old_.code
    && (t.commit == old_.commit || (old_.commit.None? && t.commit == Some(|s.world.history|)))
    && (t.creation == old_.creation || (old_.creation.None? && t.creation == Some(|s.world.creations|)))
    && next.world.admitted + (if old_.admitted then 1 else 0) >= s.world.admitted + (if t.admitted then 1 else 0)
  }

  /** Saves that the machine had not before are the save of the ticket. */
  ghost predicate NewSavesAre(site: Site, s: System, next: System, commit: Option<nat>) {
    forall h :: |s.world.history| <= h < |next.world.history| && next.world.history[h].machine == site.machine ==>
      commit == Some(h)
  }

  ghost predicate IsTicketStep(s: System, next: System, k: nat, t: Ticket) {
    && k < |s.tickets|
    && next == s.(world := next.world, variables := next.variables, tickets := s.tickets[k := t])
    && (next.variables != s.variables ==> Live(s, k))
  }

  lemma SharedStep(site: Site, s: System, next: System, k: nat, t: Ticket)
    requires TicketsOk(site, s) && NothingShared(s.tickets) && IsTicketStep(s, next, k, t)
    requires GoesOn(s, next, s.tickets[k], t)
    ensures NothingShared(next.tickets)
  {
    forall j | 0 <= j < |s.tickets|
      ensures s.tickets[j].commit != Some(|s.world.history|) && s.tickets[j].creation != Some(|s.world.creations|)
    {
      assert TicketOk(site, s, s.tickets[j]);
    }
  }

  lemma AccountedStep(site: Site, s: System, next: System, k: nat, t: Ticket)
    requires Accounted(site, s) && IsTicketStep(s, next, k, t) && s.world.history <= next.world.history
    requires s.tickets[k].commit.None? || t.commit == s.tickets[k].commit
    requires NewSavesAre(site, s, next, t.commit)
    ensures Accounted(site, next)
  {
    forall h | 0 <= h < |next.world.history| && next.world.history[h].machine == site.machine
      ensures exists j :: 0 <= j < |next.tickets| && next.tickets[j].commit == Some(h)
    {
      if h < |s.world.history| {
        assert s.world.history[h].machine == site.machine;
        var j :| 0 <= j < |s.tickets| && s.tickets[j].commit == Some(h);
        assert next.tickets[j].commit == Some(h);
      } else {
        assert next.tickets[k].commit == Some(h);
      }
    }
  }

  lemma CurrentStep(site: Site, s: System, next: System, k: nat, t: Ticket)
    requires CurrentOk(site, s) && IsTicketStep(s, next, k, t) && Grows(s, next)
    requires t.request == s.tickets[k].request && t.code == s.tickets[k].code
    requires k == |s.tickets| - 1 && IsBusy(s.machine) ==> IsRunning(s.machine) && Shows(site, next, t)
    ensures CurrentOk(site, next)
  {
    hide Shows, LastEnded, H.Issued;
    if IsBusy(s.machine) && k < |s.tickets| - 1 {
      ShowsGrows(site, s, next, s.tickets[|s.tickets| - 1]);
    }
  }

  lemma TicketStepKeeps(site: Site, s: System, next: System, k: nat, t: Ticket)
    requires Inv(site, s) && IsTicketStep(s, next, k, t) && Grows(s, next)
    requires GoesOn(s, next, s.tickets[k], t) && TicketOk(site, next, t) && NewSavesAre(site, s, next, t.commit)
    requires k == |s.tickets| - 1 && IsBusy(s.machine) ==> IsRunning(s.machine) && Shows(site, next, t)
    requires HistoryOk(site, next.world)
    ensures Inv(site, next)
  {
    hide H.Inv, TicketOk, Shows, HistoryOk, TicketsOf, Admissions, CurrentOk, NothingShared, Accounted, IsBusy;
    SharedStep(site, s, next, k, t);
    AccountedStep(site, s, next, k, t);
    CurrentStep(site, s, next, k, t);
    forall j | 0 <= j < |next.tickets| ensures TicketOk(site, next, next.tickets[j]) {
      if j != k {
        TicketGrows(site, s, next, s.tickets[j]);
      }
    }
    TicketsUpdate(s.tickets, k, t, 0);
    assert AdmissionsOk(next);
    forall i | 0 <= i < |next.machine.log| ensures TicketsOf(next.tickets, i) <= next.machine.log[i].starts {
      TicketsUpdate(s.tickets, k, t, i);
      assert TicketsOf(s.tickets, i) <= s.machine.log[i].starts;
    }
    assert IssuesOk(next);
    assert TicketsOk(site, next);
  }

  /** What is known of an open ticket before it goes on: no operation has ended with it yet. */
  lemma NotEndedYet(site: Site, s: System, k: nat)
    requires Inv(site, s) && k < |s.tickets|
    ensures TicketOk(site, s, s.tickets[k])
    ensures s.tickets[k].request < |s.savesAt| && s.savesAt[s.tickets[k].request] <= |s.world.history|
    ensures s.tickets[k].request < |s.creationsAt| && s.creationsAt[s.tickets[k].request] <= |s.world.creations|
    ensures k == |s.tickets| - 1 && IsBusy(s.machine) ==>
              && Shows(site, s, s.tickets[k])
              && (IsRunning(s.machine) || LastEnded(s.machine, s.tickets[k]))
  {
    hide H.Inv, SaveTicketOk, CreateTicketOk, LoadTicketOk, Shows, HistoryOk, TicketsOf, Admissions, IsBusy;
    assert TicketOk(site, s, s.tickets[k]);
  }

  lemma AdmitKeeps(site: Site, s: System, k: nat)
    requires site.Valid() && Inv(site, s) && AdmitStep(site, s, k).Some?
    ensures Inv(site, AdmitStep(site, s, k).value)
  {
    hide Inv, CheckEnqueuing, G.Apply, IsFound, ShowsSheet, KeepsPart, ShowsPart, HistoryOk, CreatePartIdentifier;
    var next := AdmitStep(site, s, k).value;
    NotEndedYet(site, s, k);
    var t := next.tickets[k];
    if t.admitted {
      WorldGrows(site, s.world, G.Admit);
      AdmittedAfter(site, s.world, G.Admit);
      G.OtherStepsLeaveHistory(site.gateway, s.world, G.Admit);
    }
    InvHistory(site, s);
    TicketGrows(site, s, next, s.tickets[k]);
    TicketStepKeeps(site, s, next, k, t);
  }

  lemma InvHistory(site: Site, s: System)
    requires Inv(site, s)
    ensures HistoryOk(site, s.world) && AdmissionsOk(s)
  {
    hide H.Inv, HistoryOk, AdmissionsOk, TicketsOk, CurrentOk;
  }

  /** An admitted run finishes: with a commit when its save succeeds, without one otherwise. */
  lemma FinishSaveKeeps(site: Site, s: System, k: nat, readValues: Option<seq<DataValue>>, savedAt: Instant)
    requires site.Valid() && Inv(site, s) && FinishSaveStep(site, s, k, readValues, savedAt).Some?
    ensures Inv(site, FinishSaveStep(site, s, k, readValues, savedAt).value)
  {
    hide Inv, SaveResult, G.Apply, IsFound, ShowsSheet, KeepsPart, ShowsPart, HistoryOk, CreatePartIdentifier, G.SaveOf;
    var next := FinishSaveStep(site, s, k, readValues, savedAt).value;
    var r := SaveResult(site, s, readValues, savedAt);
    SavesAreRead(site, s, readValues, savedAt);
    var e := if r.Ok? then G.Commit(site.sheets, readValues.value, site.machine, savedAt) else G.Abandon;
    NotEndedYet(site, s, k);
    InvHistory(site, s);
    WorldGrows(site, s.world, e);
    AdmittedAfter(site, s.world, e);
    if r.Ok? {
      SavedByItsMachine(site.gateway, s.world, e);
      assert next.world.history[|s.world.history|].machine == site.machine;
    } else {
      G.OtherStepsLeaveHistory(site.gateway, s.world, e);
    }
    TicketGrows(site, s, next, s.tickets[k]);
    TicketStepKeeps(site, s, next, k, next.tickets[k]);
  }

  lemma LoseSaveTaskKeeps(site: Site, s: System, k: nat)
    requires Inv(site, s) && LoseSaveTaskStep(site, s, k).Some?
    ensures Inv(site, LoseSaveTaskStep(site, s, k).value)
  {
    hide Inv, G.Apply, IsFound, ShowsSheet, KeepsPart, ShowsPart, HistoryOk, CreatePartIdentifier;
    var next := LoseSaveTaskStep(site, s, k).value;
    NotEndedYet(site, s, k);
    InvHistory(site, s);
    if s.tickets[k].admitted {
      WorldGrows(site, s.world, G.Abandon);
      AdmittedAfter(site, s.world, G.Abandon);
      G.OtherStepsLeaveHistory(site.gateway, s.world, G.Abandon);
    }
    TicketGrows(site, s, next, s.tickets[k]);
    TicketStepKeeps(site, s, next, k, next.tickets[k]);
  }

  lemma TakeSerialKeeps(site: Site, s: System, k: nat, answer: Option<seq<DataValue>>, today: Calendar.Date)
    requires Inv(site, s) && TakeSerialStep(site, s, k, answer, today).Some?
    ensures Inv(site, TakeSerialStep(site, s, k, answer, today).value)
  {
    hide Inv, RequestInputs, G.Apply, IsFound, ShowsSheet, KeepsPart, ShowsPart, HistoryOk, CreatePartIdentifier;
    var next := TakeSerialStep(site, s, k, answer, today).value;
    NotEndedYet(site, s, k);
    InvHistory(site, s);
    if RequestInputs(site.line, answer).Ok? {
      var (reference, batch, line) := RequestInputs(site.line, answer).value;
      var e := G.Create(reference, batch, line, today);
      WorldGrows(site, s.world, e);
      AdmittedAfter(site, s.world, e);
      G.OtherStepsLeaveHistory(site.gateway, s.world, e);
      Guarantees.CreateEvent(site.gateway, s.world, e);
    }
    TicketGrows(site, s, next, s.tickets[k]);
    TicketStepKeeps(site, s, next, k, next.tickets[k]);
  }

  lemma FailSerialKeeps(site: Site, s: System, k: nat, taskLost: bool)
    requires Inv(site, s) && FailSerialStep(s, k, taskLost).Some?
    ensures Inv(site, FailSerialStep(s, k, taskLost).value)
  {
    hide Inv, IsFound, ShowsSheet, KeepsPart, ShowsPart, HistoryOk, CreatePartIdentifier;
    var next := FailSerialStep(s, k, taskLost).value;
    NotEndedYet(site, s, k);
    InvHistory(site, s);
    TicketGrows(site, s, next, s.tickets[k]);
    TicketStepKeeps(site, s, next, k, next.tickets[k]);
  }

  lemma IdentifierIsShown(site: Site, before: Variables, c: Creation, outcome: WriteOutcome)
    requires c.Identifier(site.gateway.unicode).Ok?
    requires Checked(WritesOf(site.gateway.unicode, site.PartIdNode(), c), outcome).Ok?
    ensures ShowsPart(site, Written(before, WritesOf(site.gateway.unicode, site.PartIdNode(), c), outcome.dropped),
                      c.Identifier(site.gateway.unicode).value)
  {
    hide CreatePartIdentifier, Written, ValidUtf8;
    SingleWrite(before, site.PartIdNode(), UaString(Some(c.Identifier(site.gateway.unicode).value)), outcome.dropped);
  }

  lemma WriteIdentifierKeeps(site: Site, s: System, k: nat, outcome: WriteOutcome)
    requires Inv(site, s) && WriteIdentifierStep(site, s, k, outcome).Some?
    ensures Inv(site, WriteIdentifierStep(site, s, k, outcome).value)
  {
    hide Inv, IsFound, ShowsSheet, KeepsPart, ShowsPart, HistoryOk, CreatePartIdentifier, Written, Checked, WritesOf;
    var next := WriteIdentifierStep(site, s, k, outcome).value;
    var t := s.tickets[k];
    var c := s.world.creations[t.creation.value];
    NotEndedYet(site, s, k);
    InvHistory(site, s);
    TicketGrows(site, s, next, t);
    if c.Identifier(site.gateway.unicode).Ok? {
      if Checked(WritesOf(site.gateway.unicode, site.PartIdNode(), c), outcome).Ok? {
        IdentifierIsShown(site, s.variables, c, outcome);
      }
    }
    TicketStepKeeps(site, s, next, k, next.tickets[k]);
  }

  /** What is found is in the history that the world has. */
  lemma LookupFinds(site: Site, w: G.World, answer: Option<DataValue>)
    requires SheetToWrite(w.store, site.load, answer).Ok? && |w.history| <= G.MAX_SAVES && G.HistoryOk(site.gateway, w)
    ensures RequestedPart(answer).Ok?
    ensures IsFound(site, w.history, Lookup(RequestedPart(answer).value, |w.history|,
                                            SheetToWrite(w.store, site.load, answer).value))
  {
    hide RequestedPart, GetGeneralPartSheet, WritesFor, G.NamesItsPart;
    var part := RequestedPart(answer).value;
    Guarantees.LookupIsLastSave(site.gateway, w, part);
    if G.LastSave(w.history, part).Some? {
      var i := Guarantees.LastSaveIsSaved(w.history, part);
      assert G.SaveOk(site.gateway, w.history[i]);
    }
  }

  lemma PartIsShown(site: Site, variables: Variables, answer: Option<DataValue>, part: PartId)
    requires RequestedPart(answer) == Ok(part) && IsPartIdAnswer(site, variables, answer)
    ensures ShowsPart(site, variables, part)
  {
  }

  lemma LookUpKeeps(site: Site, s: System, k: nat, answer: Option<DataValue>)
    requires Inv(site, s) && LookUpStep(site, s, k, answer).Some?
    ensures Inv(site, LookUpStep(site, s, k, answer).value)
  {
    hide Inv, IsFound, ShowsSheet, KeepsPart, ShowsPart, G.HistoryOk, CreatePartIdentifier, RequestedPart,
         GetGeneralPartSheet, WritesFor, IsPartIdAnswer;
    var next := LookUpStep(site, s, k, answer).value;
    NotEndedYet(site, s, k);
    InvHistory(site, s);
    TicketGrows(site, s, next, s.tickets[k]);
    if SheetToWrite(s.world.store, site.load, answer).Ok? {
      assert s.world.history[..|s.world.history|] == s.world.history;
      if |s.world.history| <= G.MAX_SAVES {
        LookupFinds(site, s.world, answer);
      }
      PartIsShown(site, s.variables, answer, RequestedPart(answer).value);
    }
    TicketStepKeeps(site, s, next, k, next.tickets[k]);
  }

  lemma LoseLookUpTaskKeeps(site: Site, s: System, k: nat)
    requires Inv(site, s) && LoseLookUpTaskStep(s, k).Some?
    ensures Inv(site, LoseLookUpTaskStep(s, k).value)
  {
    hide Inv, IsFound, ShowsSheet, KeepsPart, ShowsPart, HistoryOk, CreatePartIdentifier;
    var next := LoseLookUpTaskStep(s, k).value;
    NotEndedYet(site, s, k);
    InvHistory(site, s);
    TicketGrows(site, s, next, s.tickets[k]);
    TicketStepKeeps(site, s, next, k, next.tickets[k]);
  }

  lemma SheetIsShown(variables: Variables, writes: seq<WriteValue>, outcome: WriteOutcome)
    requires Checked(writes, outcome).Ok?
    ensures ShowsSheet(Written(variables, writes, outcome.dropped), writes)
  {
    hide Written, LastWrite;
    forall node: NodeId {
      WrittenInFull(variables, writes, outcome.dropped, node);
    }
  }

  lemma PartStaysShown(site: Site, variables: Variables, found: Lookup, outcome: WriteOutcome)
    requires ShowsPart(site, variables, found.part) && KeepsPart(site, found)
    ensures ShowsPart(site, Written(variables, found.writes, outcome.dropped), found.part)
  {
    hide Written;
    WritingTheSame(variables, found.writes, outcome.dropped, site.PartIdNode());
  }

  lemma WriteSheetKeeps(site: Site, s: System, k: nat, outcome: WriteOutcome)
    requires Inv(site, s) && WriteSheetStep(s, k, outcome).Some?
    ensures Inv(site, WriteSheetStep(s, k, outcome).value)
  {
    hide Inv, IsFound, ShowsSheet, KeepsPart, ShowsPart, HistoryOk, CreatePartIdentifier, Written, Checked;
    var next := WriteSheetStep(s, k, outcome).value;
    var found := s.tickets[k].lookup.value;
    NotEndedYet(site, s, k);
    InvHistory(site, s);
    TicketGrows(site, s, next, s.tickets[k]);
    if Checked(found.writes, outcome).Ok? {
      SheetIsShown(s.variables, found.writes, outcome);
    }
    if IsBusy(s.machine) && KeepsPart(site, found) {
      PartStaysShown(site, s.variables, found, outcome);
    }
    TicketStepKeeps(site, s, next, k, next.tickets[k]);
  }

  // ---------------------------------------------------------------------------
  // Steps of the machine
  // ---------------------------------------------------------------------------

  /** A step of the machine other than a new request starts its last request when the handler goes
      from not running to running, and records an outcome when it finishes. */
  ghost predicate SameLog(m: H.Machine, n: H.Machine, e: H.Event) {
    && |n.log| == |m.log|
    && (forall i :: 0 <= i < |m.log| ==>
          && n.log[i].code == m.log[i].code
          && n.log[i].starts == m.log[i].starts + if i == |m.log| - 1 && StartsRun(m, n) then 1 else 0)
    && (m.log != [] ==> n.Last().outcomes == m.Last().outcomes + if e.Finish? then [e.ops] else [])
  }

  lemma StartsKeepLog(m: H.Machine, e: H.Event)
    requires H.Inv(m) && H.Step(m, e).Some? && (e.Take? || e.Decide?)
    ensures SameLog(m, H.Step(m, e).value, e)
  {
    hide ResponseTo, H.IsComputedFor, IsInitialRequestAnswered, H.Upcoming, H.Pending, H.Finished, H.Responded;
  }

  lemma HereKeepsLog(m: H.Machine, e: H.Event)
    requires H.Inv(m) && H.Step(m, e).Some? && !e.Issue?
    ensures SameLog(m, H.Step(m, e).value, e)
  {
    hide ResponseTo, H.IsComputedFor, IsInitialRequestAnswered, H.Upcoming, H.Pending, H.Taken, H.Decided;
    if e.Take? || e.Decide? {
      StartsKeepLog(m, e);
    }
  }

  /** A machine is busy with a run that starts, or with the one it was busy with. */
  ghost predicate StaysBusy(m: H.Machine, n: H.Machine, e: H.Event) {
    && (e.Finish? ==> IsRunning(m) && !IsRunning(n))
    && (e.Issue? ==> !IsBusy(n))
    && (IsBusy(n) && !StartsRun(m, n) ==> IsBusy(m) && (IsRunning(n) ==> IsRunning(m)))
    && (IsBusy(n) && !IsRunning(n) && !e.Finish? ==> !IsRunning(m))
  }

  lemma RunsStayBusy(m: H.Machine, e: H.Event)
    requires H.Inv(m) && H.Step(m, e).Some? && (e.Finish? || e.WriteResponse?)
    ensures StaysBusy(m, H.Step(m, e).value, e)
  {
    hide ResponseTo, H.IsComputedFor, H.Upcoming, H.Taken, H.Decided;
  }

  lemma StartsAreBusy(m: H.Machine, e: H.Event)
    requires H.Inv(m) && H.Step(m, e).Some? && (e.Take? || e.Decide?)
    ensures StaysBusy(m, H.Step(m, e).value, e)
  {
    hide ResponseTo, H.IsComputedFor, H.Upcoming, IsInitialRequestAnswered, H.Finished, H.Responded, H.RecordOk;
    H.StepKeeps(m, e);
  }

  lemma HereKeepsBusy(m: H.Machine, e: H.Event)
    requires H.Inv(m) && H.Step(m, e).Some?
    ensures StaysBusy(m, H.Step(m, e).value, e)
  {
    hide ResponseTo, H.IsComputedFor, H.Upcoming, H.Taken, H.Decided, H.Finished, H.Responded, H.RecordOk;
    if e.Finish? || e.WriteResponse? {
      RunsStayBusy(m, e);
    } else if e.Take? || e.Decide? {
      StartsAreBusy(m, e);
    }
  }

  lemma BusyIsAboutLast(m: H.Machine)
    requires H.Inv(m) && IsBusy(m)
    ensures m.log != [] && (!IsRunning(m) ==> m.Last().outcomes != [])
    ensures IsRunning(m) ==> m.session.value.handler.found == m.Last().code
  {
    hide H.Upcoming;
  }

  lemma IssueAddsRequest(m: H.Machine, e: H.Event)
    requires H.Step(m, e).Some? && e.Issue?
    ensures H.Step(m, e).value.log == m.log + [H.Record(e.code, 0, 0, false, [])]
  {
  }

  lemma IssueKeeps(site: Site, s: System, e: H.Event)
    requires Inv(site, s) && e.Issue? && HereStep(s, e).Some?
    ensures Inv(site, HereStep(s, e).value)
  {
    hide H.Inv, H.Step, TicketOk, HistoryOk, TicketsOf, Admissions, IsBusy, Shows;
    var next := HereStep(s, e).value;
    H.StepKeeps(s.machine, e);
    HereKeepsBusy(s.machine, e);
    IssueAddsRequest(s.machine, e);
    forall k | 0 <= k < |s.tickets|
      ensures TicketOk(site, next, s.tickets[k]) && s.tickets[k].request < |s.machine.log|
    {
      TicketGrows(site, s, next, s.tickets[k]);
      RequestIsIssued(site, s, s.tickets[k]);
    }
    NoTicketsYet(s.tickets, |s.machine.log|);
    forall i | 0 <= i < |next.machine.log| ensures TicketsOf(next.tickets, i) <= next.machine.log[i].starts {
      assert i < |s.machine.log| ==> TicketsOf(s.tickets, i) <= s.machine.log[i].starts;
    }
    AccountedKeeps(site, s, next);
  }

  lemma RequestIsIssued(site: Site, s: System, t: Ticket)
    requires TicketOk(site, s, t)
    ensures t.request < |s.machine.log|
  {
  }

  /** Saves stay accounted for when tickets keep their commits, or new ones come. */
  lemma AccountedKeeps(site: Site, s: System, next: System)
    requires Accounted(site, s) && |s.tickets| <= |next.tickets|
    requires forall k :: 0 <= k < |s.tickets| ==> next.tickets[k].commit == s.tickets[k].commit
    requires s.world.history <= next.world.history && NewSavesAre(site, s, next, None)
    ensures Accounted(site, next)
  {
    forall h | 0 <= h < |next.world.history| && next.world.history[h].machine == site.machine
      ensures exists k :: 0 <= k < |next.tickets| && next.tickets[k].commit == Some(h)
    {
      assert h < |s.world.history| && s.world.history[h].machine == site.machine;
      var k :| 0 <= k < |s.tickets| && s.tickets[k].commit == Some(h);
      assert next.tickets[k].commit == Some(h);
    }
  }

  lemma StartKeeps(site: Site, s: System, next: System, e: H.Event, t: Ticket)
    requires Inv(site, s) && H.Inv(next.machine) && SameLog(s.machine, next.machine, e)
    requires StartsRun(s.machine, next.machine) && t == NewTicket(|next.machine.log| - 1, next.machine.Last().code)
    requires next == s.(machine := next.machine, tickets := s.tickets + [t])
    ensures Inv(site, next)
  {
    hide H.Inv, TicketOk, HistoryOk, TicketsOf, Admissions, IsBusy, Accounted;
    AccountedKeeps(site, s, next);
    forall k | 0 <= k < |next.tickets| ensures TicketOk(site, next, next.tickets[k]) {
      if k < |s.tickets| {
        TicketGrows(site, s, next, s.tickets[k]);
      } else {
        NewTicketOk(site, next, t);
      }
    }
    TicketsSnoc(s.tickets, t, 0);
    forall i | 0 <= i < |next.machine.log| ensures TicketsOf(next.tickets, i) <= next.machine.log[i].starts {
      TicketsSnoc(s.tickets, t, i);
      assert TicketsOf(s.tickets, i) <= s.machine.log[i].starts;
    }
  }

  lemma NewTicketOk(site: Site, s: System, t: Ticket)
    requires IssuesOk(s) && s.machine.log != [] && t == NewTicket(|s.machine.log| - 1, s.machine.Last().code)
    ensures TicketOk(site, s, t)
  {
  }

  /** A step that starts no run. */
  lemma QuietKeeps(site: Site, s: System, next: System, e: H.Event)
    requires Inv(site, s) && H.Inv(next.machine) && SameLog(s.machine, next.machine, e)
    requires !StartsRun(s.machine, next.machine) && next == s.(machine := next.machine)
    requires IsBusy(next.machine) ==> IsBusy(s.machine) && (IsRunning(next.machine) ==> IsRunning(s.machine))
    requires IsBusy(next.machine) && !IsRunning(next.machine) && !e.Finish? ==> !IsRunning(s.machine)
    requires e.Finish? ==> s.tickets != [] && Agrees(s.tickets[|s.tickets| - 1], e.ops)
    ensures Inv(site, next)
  {
    hide H.Inv, TicketOk, HistoryOk, TicketsOf, Admissions, IsBusy, IsRunning, Shows, Agrees, Accounted;
    AccountedKeeps(site, s, next);
    forall k | 0 <= k < |s.tickets| ensures TicketOk(site, next, s.tickets[k]) {
      TicketGrows(site, s, next, s.tickets[k]);
    }
    if IsBusy(next.machine) {
      ShowsGrows(site, s, next, s.tickets[|s.tickets| - 1]);
      if !IsRunning(next.machine) {
        EndedNow(s.machine, next.machine, e, s.tickets[|s.tickets| - 1]);
      }
    }
  }

  lemma EndedNow(m: H.Machine, n: H.Machine, e: H.Event, t: Ticket)
    requires m.log != [] && SameLog(m, n, e)
    requires if e.Finish? then Agrees(t, e.ops) else LastEnded(m, t)
    ensures LastEnded(n, t)
  {
  }

  lemma HereKeeps(site: Site, s: System, e: H.Event)
    requires Inv(site, s) && HereStep(s, e).Some?
    ensures Inv(site, HereStep(s, e).value)
  {
    hide H.Inv, H.Step, TicketsOk, HistoryOk, NothingShared, Accounted, CountsOk, AdmissionsOk, IsBusy, Agrees,
         CurrentOk;
    var next := HereStep(s, e).value;
    if e.Issue? {
      IssueKeeps(site, s, e);
    } else {
      H.StepKeeps(s.machine, e);
      HereKeepsLog(s.machine, e);
      HereKeepsBusy(s.machine, e);
      if StartsRun(s.machine, next.machine) {
        RunningIsBusy(next.machine);
        BusyIsAboutLast(next.machine);
        StartKeeps(site, s, next, e, next.tickets[|s.tickets|]);
      } else {
        QuietKeeps(site, s, next, e);
      }
    }
  }

  lemma RunningIsBusy(m: H.Machine)
    requires IsRunning(m)
    ensures IsBusy(m)
  {
  }

  // ---------------------------------------------------------------------------
  // What else happens
  // ---------------------------------------------------------------------------

  lemma ElsewhereKeeps(site: Site, s: System, other: G.Event)
    requires Inv(site, s) && ElsewhereStep(site, s, other).Some?
    ensures Inv(site, ElsewhereStep(site, s, other).value)
  {
    hide H.Inv, G.Apply, G.SaveOf, TicketOk, HistoryOk, TicketsOf, Admissions, IsBusy, Shows, Accounted, LastEnded;
    var next := ElsewhereStep(site, s, other).value;
    WorldGrows(site, s.world, other);
    AdmittedAfter(site, s.world, other);
    if other.Commit? {
      SavedByItsMachine(site.gateway, s.world, other);
    } else {
      G.OtherStepsLeaveHistory(site.gateway, s.world, other);
    }
    AccountedKeeps(site, s, next);
    forall k | 0 <= k < |s.tickets| ensures TicketOk(site, next, s.tickets[k]) {
      TicketGrows(site, s, next, s.tickets[k]);
    }
    if IsBusy(s.machine) {
      ShowsGrows(site, s, next, s.tickets[|s.tickets| - 1]);
    }
  }

  /** The program of the machine writes only when the gateway has nothing to do for it. */
  lemma ProgramKeeps(site: Site, s: System, variables: Variables)
    requires Inv(site, s) && s.machine.Ready()
    ensures Inv(site, s.(variables := variables))
  {
    hide TicketOk, HistoryOk, TicketsOf, Admissions, Shows, LastEnded, Accounted;
    var next := s.(variables := variables);
    ReadyIsNotBusy(s.machine);
    AccountedKeeps(site, s, next);
    forall k | 0 <= k < |s.tickets| ensures TicketOk(site, next, s.tickets[k]) {
      TicketGrows(site, s, next, s.tickets[k]);
    }
  }

  lemma ReadyIsNotBusy(m: H.Machine)
    requires H.Inv(m) && m.Ready()
    ensures !IsBusy(m)
  {
  }

  lemma LossFacts(m: H.Machine)
    requires H.Inv(m)
    ensures
      var left := match H.SessionLost(m) case None => m case Some(left) => left;
      && H.Inv(left) && SameLog(m, left, H.LoseSession) && !StartsRun(m, left)
      && (IsBusy(left) ==> IsBusy(m) && !IsRunning(left) && !IsRunning(m))
  {
    hide H.Upcoming, H.IsComputedFor, ResponseTo;
    if H.SessionLost(m).Some? {
      H.LossKeeps(m);
      HereKeepsLog(m, H.LoseSession);
    }
  }

  lemma ClosedTicket(site: Site, s: System, t: Ticket)
    ensures TicketOk(site, s, t) ==> TicketOk(site, s, t.(open := false, admitted := false))
    ensures Shows(site, s, t) ==> Shows(site, s, t.(open := false, admitted := false))
  {
    hide ShowsPart, ShowsSheet, KeepsPart, IsFound;
  }

  lemma RestartKeeps(site: Site, s: System)
    requires Inv(site, s)
    ensures Inv(site, Restarted(s))
  {
    hide H.Inv, H.SessionLost, TicketOk, HistoryOk, TicketsOf, Admissions, IsBusy, IsRunning, Shows, Accounted, G.Apply;
    var next := Restarted(s);
    LossFacts(s.machine);
    CrashIsAnEvent(site, s.world);
    WorldGrows(site, s.world, G.Crash);
    AccountedKeeps(site, s, next);
    forall k | 0 <= k < |s.tickets| ensures TicketOk(site, next, next.tickets[k]) {
      TicketGrows(site, s, next, s.tickets[k]);
      ClosedTicket(site, next, s.tickets[k]);
    }
    ClosedCounts(s.tickets, 0);
    forall i | 0 <= i < |next.machine.log| ensures TicketsOf(next.tickets, i) <= next.machine.log[i].starts {
      ClosedCounts(s.tickets, i);
      assert TicketsOf(s.tickets, i) <= s.machine.log[i].starts;
    }
    if IsBusy(next.machine) {
      var n := |s.tickets| - 1;
      ShowsGrows(site, s, next, s.tickets[n]);
      ClosedTicket(site, next, s.tickets[n]);
      EndedNow(s.machine, next.machine, H.LoseSession, next.tickets[n]);
    }
  }

  lemma CrashIsAnEvent(site: Site, w: G.World)
    ensures G.Apply(site.gateway, w, G.Crash) == Some(G.Crashed(w))
    ensures G.Crashed(w).history == w.history && G.Crashed(w).creations == w.creations
  {
  }

  lemma StepKeeps(site: Site, s: System, e: Event)
    requires site.Valid() && Inv(site, s) && Step(site, s, e).Some?
    ensures Inv(site, Step(site, s, e).value)
  {
    hide Inv, ElsewhereStep, HereStep, AdmitStep, FinishSaveStep, LoseSaveTaskStep, TakeSerialStep, FailSerialStep,
         WriteIdentifierStep, LookUpStep, LoseLookUpTaskStep, WriteSheetStep, Restarted;
    match e
    case Elsewhere(other) => ElsewhereKeeps(site, s, other);
    case Here(own) => HereKeeps(site, s, own);
    case Program(variables) => ProgramKeeps(site, s, variables);
    case AdmitSave(k) => AdmitKeeps(site, s, k);
    case FinishSave(k, readValues, savedAt) => FinishSaveKeeps(site, s, k, readValues, savedAt);
    case LoseSaveTask(k) => LoseSaveTaskKeeps(site, s, k);
    case TakeSerial(k, answer, today) => TakeSerialKeeps(site, s, k, answer, today);
    case FailSerial(k, taskLost) => FailSerialKeeps(site, s, k, taskLost);
    case WriteIdentifier(k, outcome) => WriteIdentifierKeeps(site, s, k, outcome);
    case LookUp(k, answer) => LookUpKeeps(site, s, k, answer);
    case LoseLookUpTask(k) => LoseLookUpTaskKeeps(site, s, k);
    case WriteSheet(k, outcome) => WriteSheetKeeps(site, s, k, outcome);
    case Restart => RestartKeeps(site, s);
  }

  lemma AtRestIsFine(site: Site, variables: Variables)
    ensures Inv(site, AtRest(variables))
  {
    H.AtRestIsFine();
  }

  lemma {:induction false} Reached(site: Site, start: Variables, run: seq<Event>)
    requires site.Valid() && Play(site, start, run).Some?
    ensures Inv(site, Play(site, start, run).value)
  {
    hide Inv, Step;
    if run == [] {
      AtRestIsFine(site, start);
    } else {
      var before := run[..|run| - 1];
      Reached(site, start, before);
      StepKeeps(site, Play(site, start, before).value, run[|run| - 1]);
    }
  }
}
