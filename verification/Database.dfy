/** Draining the queues to the archive, and how it fits in the runs of the gateway. */
module Database {
  import opened Wrappers
  import opened Bytes
  import opened Calendar
  import opened AsciiText
  import opened Variants
  import opened PartSheets
  import opened Cache
  import opened SaveRequest
  import opened Outbox
  import opened Gateway
  import opened Drains

  /** What may happen while a drain waits: handlers take their turns, and an insertion that an
      earlier drain gave up on lands. */
  datatype Turn =
    | AdmitTurn
    | SaveTurn(ctx: SheetsContext, machine: Utf8, savedAt: Instant, readValues: Option<seq<DataValue>>)
    | CreateTurn(reference: Utf8, batch: Code2, line: Code2, today: Date)
    | LandTurn(queue: QueueTable, attempt: nat)

  /** Whose turn it is during a tick: one of the two drains, polled together, or somebody else. */
  datatype Poll = Resume(queue: QueueTable) | Handle(turn: Turn)

  datatype Tick = Tick(general: Fate, operation: Fate, polls: seq<Poll>)

  function PollCount(ticks: seq<Tick>): nat {
    if ticks == [] then 0 else PollCount(ticks[..|ticks| - 1]) + |ticks[|ticks| - 1].polls|
  }

  function FateOf(tick: Tick, q: QueueTable): Fate {
    if q.General? then tick.general else tick.operation
  }

  function FatesOf(ticks: seq<Tick>, q: QueueTable): (fates: seq<Fate>)
    ensures |fates| == |ticks| && forall i :: 0 <= i < |ticks| ==> fates[i] == FateOf(ticks[i], q)
  {
    seq(|ticks|, i requires 0 <= i < |ticks| => FateOf(ticks[i], q))
  }

  /** No save request finishes during a tick. */
  predicate NothingSaved(polls: seq<Poll>) {
    forall i :: 0 <= i < |polls| && polls[i].Handle? ==> !polls[i].turn.SaveTurn?
  }

  predicate PollsOk(polls: seq<Poll>, partIdNid: u32) {
    forall i :: 0 <= i < |polls| && polls[i].Handle? ==> TurnOk(polls[i].turn, partIdNid)
  }

  predicate NothingLands(turns: seq<Turn>, q: QueueTable) {
    forall i :: 0 <= i < |turns| && turns[i].LandTurn? ==> turns[i].queue != q
  }

  predicate TurnOk(t: Turn, partIdNid: u32) {
    t.SaveTurn? ==>
      && Initialize(t.ctx.general, t.ctx.operation, partIdNid) == Some(t.ctx)
      && (t.readValues.Some? ==> AllRepresentable(t.readValues.value))
  }

  lemma NothingLandsSoFar(turns: seq<Turn>, i: nat)
    requires i < |turns|
    ensures forall q :: NothingLands(turns[..i + 1], q) ==> NothingLands(turns[..i], q) && NothingLands([turns[i]], q)
  {
    forall q | NothingLands(turns[..i + 1], q) ensures NothingLands(turns[..i], q) && NothingLands([turns[i]], q) {
      assert turns[..i + 1][i] == turns[i];
      assert forall j :: 0 <= j < i ==> turns[..i + 1][j] == turns[..i][j];
    }
  }

  // ---------------------------------------------------------------------------
  // The database object
  // ---------------------------------------------------------------------------

  class TraceabilityDatabase {
    const cache: TraceabilityCache

    // The archive tables.
    var generalTable: seq<Line>
    var operationTable: seq<Line>

    // The body of every insertion that may still land, by attempt.
    var generalInsertions: seq<Option<bytes>>
    var operationInsertions: seq<Option<bytes>>

    // Save requests admitted and not yet finished.
    var waiting: nat

    // Everything that happened since the cache and the tables were empty.
    ghost const config: Config
    ghost var run: seq<Event>

    function Table(q: QueueTable): seq<Line>
      reads this
    {
      if q.General? then generalTable else operationTable
    }

    function Insertions(q: QueueTable): seq<Option<bytes>>
      reads this
    {
      if q.General? then generalInsertions else operationInsertions
    }

    /** The world the run led to. */
    ghost function Now(): World
      reads this
    {
      match Execute(config, run)
      case Some(w) => w
      case None => START
    }

    ghost function LaneNow(q: QueueTable): Lane
      reads this
    {
      Now().LaneOf(q)
    }

    /** The cache and the tables are those of the world a run of the gateway leads to. */
    ghost predicate Valid()
      reads this, cache
    {
      && Execute(config, run).Some?
      && cache.State() == Now().store
      && generalTable == Now().general.table && operationTable == Now().operation.table
      && generalInsertions == InFlight(Now().general.attempts)
      && operationInsertions == InFlight(Now().operation.attempts)
      && waiting == Now().admitted
      && cache.queuesThreshold == config.threshold && cache.floatFormat == config.floats
      && |Now().history| <= MAX_SAVES
    }

    constructor (cache: TraceabilityCache, generalTable: seq<Line>, operationTable: seq<Line>,
                 generalInsertions: seq<Option<bytes>>, operationInsertions: seq<Option<bytes>>,
                 ghost config: Config, ghost run: seq<Event>)
      requires Execute(config, run).Some? && |Execute(config, run).value.history| <= MAX_SAVES
      requires cache.State() == Execute(config, run).value.store
      requires generalTable == Execute(config, run).value.general.table
      requires operationTable == Execute(config, run).value.operation.table
      requires generalInsertions == InFlight(Execute(config, run).value.general.attempts)
      requires operationInsertions == InFlight(Execute(config, run).value.operation.attempts)
      requires Execute(config, run).value.admitted == 0
      requires cache.queuesThreshold == config.threshold && cache.floatFormat == config.floats
      ensures Valid() && this.cache == cache && this.config == config && this.run == run
    {
      this.cache := cache;
      this.generalTable, this.operationTable := generalTable, operationTable;
      this.generalInsertions, this.operationInsertions := generalInsertions, operationInsertions;
      this.waiting := 0;
      this.config, this.run := config, run;
    }

    ghost method Record(e: Event)
      requires Execute(config, run).Some? && Apply(config, Now(), e).Some?
      modifies this`run
      ensures run == old(run) + [e]
      ensures Execute(config, run).Some? && Some(Now()) == Apply(config, old(Now()), e)
    {
      StepForward(config, run, Now(), e);
      run := run + [e];
    }

    /** The drainer gives up, wherever it is. */
    ghost method GiveUpDrain(q: QueueTable)
      requires Valid()
      modifies this`run
      ensures Valid() && run == old(run) + [FailDrain(q)]
      ensures LaneNow(q) == GiveUp(old(LaneNow(q))) && LaneNow(OtherQueue(q)) == old(LaneNow(OtherQueue(q)))
      ensures Now().history == old(Now().history)
    {
      hide Execute;
      Record(FailDrain(q));
    }

    // -------------------------------------------------------------------------
    // The steps of a drain
    // -------------------------------------------------------------------------

    /** First step of a drain: reading the queue. */
    method GetQueueBatch(q: QueueTable) returns (keys: seq<nat>, body: bytes)
      requires Valid() && LaneNow(q).phase.Idle?
      modifies this`run, this`generalInsertions, this`operationInsertions
      ensures Valid() && run == old(run) + [SnapshotQueue(q)] && Now().history == old(Now().history)
      ensures (keys, body) == QueueBatch(cache.State(), q) && HasRead(LaneNow(q), keys, body)
      ensures Upto(LaneNow(q)) == |Now().history|
      ensures AttemptOf(LaneNow(q)) == |old(LaneNow(q)).attempts| && LaneNow(q).removed == old(LaneNow(q).removed)
      ensures LaneNow(OtherQueue(q)) == old(LaneNow(OtherQueue(q)))
    {
      hide Execute, QueueBatch, HasRead, Upto, AttemptOf;
      SnapshotHasRead(Now(), q);
      keys, body := cache.GetQueueBatch(q);
      Record(SnapshotQueue(q));
      if q.General? {
        generalInsertions := generalInsertions + [None];
      } else {
        operationInsertions := operationInsertions + [None];
      }
    }

    /** Second step: one insertion of the whole body. */
    method InsertBatch(q: QueueTable, ghost keys: seq<nat>, body: bytes, fate: Fate)
      returns (r: Result<(), DrainError>)
      requires Valid() && HasRead(LaneNow(q), keys, body)
      modifies this`generalTable, this`operationTable, this`generalInsertions, this`operationInsertions, this`run
      ensures Valid() && run == old(run) + InsertEvents(q, AttemptOf(old(LaneNow(q))), fate)
      ensures Table(q) == old(Table(q)) + if Lands(fate) then Lines(body) else []
      ensures Table(OtherQueue(q)) == old(Table(OtherQueue(q)))
      ensures LaneNow(OtherQueue(q)) == old(LaneNow(OtherQueue(q)))
      ensures r == if fate.RemovalFails? || fate.Completes? then Ok(()) else Err(Insert)
      ensures if r.Ok? then HasArchived(LaneNow(q), keys) else LaneNow(q).phase.Idle?
      ensures r.Ok? ==> Upto(LaneNow(q)) == old(Upto(LaneNow(q)))
      ensures LaneNow(q).removed == old(LaneNow(q).removed) && Now().history == old(Now().history)
    {
      hide Execute, HasRead, HasArchived, Upto, Lines, InFlight, AttemptOf;
      if !Lands(fate) {
        LeavePending(q, keys, body);
        return Err(Insert);
      }
      Deliver(q, keys, body, fate.AcknowledgementLost?);
      return if fate.AcknowledgementLost? then Err(Insert) else Ok(());
    }

    /** The body is sent, and the drain gives up before it hears anything. */
    method LeavePending(q: QueueTable, ghost keys: seq<nat>, body: bytes)
      requires Valid() && HasRead(LaneNow(q), keys, body)
      modifies this`generalInsertions, this`operationInsertions, this`run
      ensures Valid() && run == old(run) + [SendBatch(q), FailDrain(q)]
      ensures LaneNow(OtherQueue(q)) == old(LaneNow(OtherQueue(q))) && LaneNow(q).phase.Idle?
      ensures LaneNow(q).removed == old(LaneNow(q).removed) && Now().history == old(Now().history)
    {
      hide Execute, Send, Land, Acknowledge, HasRead, HasArchived, Upto, Lines, InFlight;
      DeliverySteps(LaneNow(q), keys, body);
      Record(SendBatch(q));
      SetInsertion(q, |Insertions(q)| - 1, Some(body));
      GiveUpDrain(q);
    }

    /** The body is sent and lands. */
    method SendAndLand(q: QueueTable, ghost keys: seq<nat>, body: bytes)
      requires Valid() && HasRead(LaneNow(q), keys, body)
      modifies this`generalTable, this`operationTable, this`generalInsertions, this`operationInsertions, this`run
      ensures Valid() && run == old(run) + [SendBatch(q), LandBatch(q, AttemptOf(old(LaneNow(q))))]
      ensures Table(q) == old(Table(q)) + Lines(body) && Table(OtherQueue(q)) == old(Table(OtherQueue(q)))
      ensures LaneNow(OtherQueue(q)) == old(LaneNow(OtherQueue(q))) && Now().history == old(Now().history)
      ensures Send(old(LaneNow(q))).Some?
      ensures Land(Send(old(LaneNow(q))).value, AttemptOf(old(LaneNow(q)))) == Some(LaneNow(q))
    {
      hide Execute, Send, Land, Acknowledge, HasRead, HasArchived, Upto, Lines, InFlight, IsAt;
      DeliverySteps(LaneNow(q), keys, body);
      ghost var a := LaneNow(q).phase.attempt;
      Record(SendBatch(q));
      Record(LandBatch(q, a));
      SetInsertion(q, |Insertions(q)| - 1, None);
      Append(q, Lines(body));
    }

    /** The body is sent and lands, and the drain hears of it or not. */
    method Deliver(q: QueueTable, ghost keys: seq<nat>, body: bytes, lost: bool)
      requires Valid() && HasRead(LaneNow(q), keys, body)
      modifies this`generalTable, this`operationTable, this`generalInsertions, this`operationInsertions, this`run
      ensures Valid()
      ensures run == old(run) + [SendBatch(q), LandBatch(q, AttemptOf(old(LaneNow(q)))),
                                 if lost then FailDrain(q) else AcknowledgeBatch(q)]
      ensures Table(q) == old(Table(q)) + Lines(body) && Table(OtherQueue(q)) == old(Table(OtherQueue(q)))
      ensures LaneNow(OtherQueue(q)) == old(LaneNow(OtherQueue(q)))
      ensures if lost then LaneNow(q).phase.Idle? else HasArchived(LaneNow(q), keys)
      ensures !lost ==> Upto(LaneNow(q)) == old(Upto(LaneNow(q)))
      ensures LaneNow(q).removed == old(LaneNow(q).removed) && Now().history == old(Now().history)
    {
      hide Execute, Send, Land, Acknowledge, HasRead, HasArchived, Upto, Lines, InFlight, IsAt;
      DeliverySteps(LaneNow(q), keys, body);
      SendAndLand(q, keys, body);
      if lost {
        GiveUpDrain(q);
      } else {
        Record(AcknowledgeBatch(q));
      }
    }

    /** Third step: removing what was inserted. */
    method RemoveEntries(q: QueueTable, keys: seq<nat>, commits: bool) returns (r: Result<(), DrainError>)
      requires Valid() && HasArchived(LaneNow(q), keys)
      modifies this`run, cache`generalQueue, cache`operationQueue
      ensures Valid() && run == old(run) + [if commits then RemoveBatch(q) else FailDrain(q)]
      ensures cache.State() == if commits then Removed(old(cache.State()), q, keys) else old(cache.State())
      ensures LaneNow(q).phase.Idle? && LaneNow(OtherQueue(q)) == old(LaneNow(OtherQueue(q)))
      ensures LaneNow(q).removed == if commits then old(Upto(LaneNow(q))) else old(LaneNow(q).removed)
      ensures Now().history == old(Now().history)
      ensures r == if commits then Ok(()) else Err(RemoveQueued)
    {
      hide Execute, Removed;
      if !commits {
        GiveUpDrain(q);
        return Err(RemoveQueued);
      }
      cache.RemoveEntries(q, keys);
      Record(RemoveBatch(q));
      return Ok(());
    }

    /** A body that was sent lands after its drain has given up on it. */
    method LandPending(q: QueueTable, a: nat)
      requires Valid() && a < |Insertions(q)| && Insertions(q)[a].Some?
      modifies this`generalTable, this`operationTable, this`generalInsertions, this`operationInsertions, this`run
      ensures Valid() && run == old(run) + [LandBatch(q, a)] && Now().history == old(Now().history)
      ensures Table(q) == old(Table(q)) + Lines(old(Insertions(q)[a].value))
      ensures Insertions(q) == old(Insertions(q))[a := None] && SameDrain(old(LaneNow(q)), LaneNow(q))
      ensures Table(OtherQueue(q)) == old(Table(OtherQueue(q)))
      ensures LaneNow(OtherQueue(q)) == old(LaneNow(OtherQueue(q)))
    {
      hide Execute, Lines, Range, Land, SameDrain;
      LateLanding(LaneNow(q), a);
      Record(LandBatch(q, a));
      Append(q, Lines(Insertions(q)[a].value));
      SetInsertion(q, a, None);
    }

    /** The server adds rows to a table. */
    method Append(q: QueueTable, rows: seq<Line>)
      modifies this`generalTable, this`operationTable
      ensures Table(q) == old(Table(q)) + rows && Table(OtherQueue(q)) == old(Table(OtherQueue(q)))
    {
      if q.General? {
        generalTable := generalTable + rows;
      } else {
        operationTable := operationTable + rows;
      }
    }

    method SetInsertion(q: QueueTable, a: nat, body: Option<bytes>)
      requires a < |Insertions(q)|
      modifies this`generalInsertions, this`operationInsertions
      ensures Insertions(q) == old(Insertions(q))[a := body]
      ensures Insertions(OtherQueue(q)) == old(Insertions(OtherQueue(q)))
    {
      if q.General? {
        generalInsertions := generalInsertions[a := body];
      } else {
        operationInsertions := operationInsertions[a := body];
      }
    }

    // -------------------------------------------------------------------------
    // What handlers do meanwhile
    // -------------------------------------------------------------------------

    /** The first step of a save request: its admission. */
    method AdmitSave() returns (r: Result<(), CheckError>)
      requires Valid()
      modifies this`waiting, this`run
      ensures Valid() && run == old(run) + if r.Ok? then [Admit] else []
      ensures r == CheckEnqueuing(cache.State(), cache.queuesThreshold)
      ensures waiting == old(waiting) + if r.Ok? then 1 else 0
      ensures (forall q :: LaneNow(q) == old(LaneNow(q))) && Now().history == old(Now().history)
    {
      hide Execute, CheckEnqueuing;
      r := cache.CheckEnqueuingAllowed();
      if r.Ok? {
        Record(Admit);
        waiting := waiting + 1;
      }
    }

    /** The rest of an admitted save request, any time later. */
    method FinishSave(ctx: SheetsContext, machine: Utf8, savedAt: Instant, readValues: Option<seq<DataValue>>)
      returns (r: Result<(), HandleSaveError>)
      requires Valid() && waiting > 0 && |Now().history| < MAX_SAVES
      requires TurnOk(SaveTurn(ctx, machine, savedAt, readValues), config.partIdNid)
      modifies this`waiting, this`run, cache
      ensures Valid() && waiting == old(waiting) - 1
      ensures (r, cache.State()) ==
              SavingValues(old(cache.State()), cache.floatFormat, ctx, machine, savedAt, readValues)
      ensures r.Ok? ==> readValues.Some? && run == old(run) + [Commit(ctx, readValues.value, machine, savedAt)]
      ensures r.Err? ==> run == old(run) + [Abandon]
      ensures forall q :: LaneNow(q) == old(LaneNow(q))
      ensures |Now().history| == |old(Now().history)| + if r.Ok? then 1 else 0
    {
      hide Execute, SliceSheets, Saved, Initialize;
      r := SaveValues(cache, ctx, machine, savedAt, readValues);
      if r.Ok? {
        Record(Commit(ctx, readValues.value, machine, savedAt));
      } else {
        Record(Abandon);
      }
      waiting := waiting - 1;
    }

    /** An identifier creation takes a serial number. */
    method TakeSerial(reference: Utf8, batch: Code2, line: Code2, today: Date) returns (serial: nat)
      requires Valid()
      modifies this`run, cache`serials
      ensures Valid() && run == old(run) + [Create(reference, batch, line, today)]
      ensures serial == NextSerial(old(cache.State()), today) && cache.State() == SerialTaken(old(cache.State()), today)
      ensures (forall q :: LaneNow(q) == old(LaneNow(q))) && Now().history == old(Now().history)
    {
      hide Execute, NextSerial;
      serial := cache.TakeSerial(today);
      Record(Create(reference, batch, line, today));
    }

    /** One turn of somebody; a save nobody was admitted for does not happen, nor does the landing
        of what is not in flight. */
    method HandleTurn(t: Turn)
      requires Valid() && TurnOk(t, config.partIdNid) && |Now().history| < MAX_SAVES
      modifies this, cache
      ensures Valid() && old(run) <= run && TurnsLeave([t])
      ensures |old(Now().history)| <= |Now().history| <= |old(Now().history)| + if t.SaveTurn? then 1 else 0
    {
      hide Execute, Initialize, SavingValues, CheckEnqueuing, SerialTaken, NextSerial, Lines, InFlight, SameDrain;
      SameDrainAtAll(LaneNow(General));
      SameDrainAtAll(LaneNow(Operation));
      match t {
        case AdmitTurn =>
          var _ := AdmitSave();
        case SaveTurn(ctx, machine, savedAt, readValues) =>
          if waiting > 0 {
            var _ := FinishSave(ctx, machine, savedAt, readValues);
          }
        case CreateTurn(reference, batch, line, today) =>
          var _ := TakeSerial(reference, batch, line, today);
        case LandTurn(q, a) =>
          if a < |Insertions(q)| && Insertions(q)[a].Some? {
            assert [t][0] == t;
            LandPending(q, a);
          }
      }
    }

    /** Turns leave drains where they are, and only add rows to the tables, where something lands. */
    twostate predicate TurnsLeave(turns: seq<Turn>)
      reads this
    {
      forall q ::
        && SameDrain(old(LaneNow(q)), LaneNow(q)) && old(Table(q)) <= Table(q)
        && (NothingLands(turns, q) ==> Table(q) == old(Table(q)))
    }

    method HandleTurns(turns: seq<Turn>)
      requires Valid() && forall t :: t in turns ==> TurnOk(t, config.partIdNid)
      requires |Now().history| + |turns| <= MAX_SAVES
      modifies this, cache
      ensures Valid() && old(run) <= run && TurnsLeave(turns)
      ensures |old(Now().history)| <= |Now().history| <= |old(Now().history)| + |turns|
    {
      hide Execute, TurnOk, SameDrain, NothingLands, InFlight;
      SameDrainAtAll(LaneNow(General));
      SameDrainAtAll(LaneNow(Operation));
      for i := 0 to |turns|
        invariant Valid() && old(run) <= run && TurnsLeave(turns[..i])
        invariant |old(Now().history)| <= |Now().history| <= |old(Now().history)| + i
      {
        ghost var general, operation := LaneNow(General), LaneNow(Operation);
        HandleTurn(turns[i]);
        SameDrainAgain(old(LaneNow(General)), general, LaneNow(General));
        SameDrainAgain(old(LaneNow(Operation)), operation, LaneNow(Operation));
        NothingLandsSoFar(turns, i);
      }
      assert turns[..|turns|] == turns;
    }

    // -------------------------------------------------------------------------
    // Drains
    // -------------------------------------------------------------------------

    /** Others take turns while a drain waits, and it finds its lane as it left it. */
    method WaitFor(q: QueueTable, ghost keys: seq<nat>, ghost body: bytes, turns: seq<Turn>)
      returns (ghost landed: seq<Line>)
      requires Valid() && (HasRead(LaneNow(q), keys, body) || HasArchived(LaneNow(q), keys))
      requires (forall t :: t in turns ==> TurnOk(t, config.partIdNid)) && |Now().history| + |turns| <= MAX_SAVES
      modifies this, cache
      ensures Valid() && old(run) <= run
      ensures |old(Now().history)| <= |Now().history| <= |old(Now().history)| + |turns|
      ensures old(HasRead(LaneNow(q), keys, body)) ==> HasRead(LaneNow(q), keys, body)
      ensures old(HasArchived(LaneNow(q), keys)) ==> HasArchived(LaneNow(q), keys)
      ensures Upto(LaneNow(q)) == old(Upto(LaneNow(q))) && LaneNow(q).removed == old(LaneNow(q).removed)
      ensures Table(q) == old(Table(q)) + landed && (NothingLands(turns, q) ==> landed == [])
    {
      hide Execute, TurnOk;
      ghost var lane, rows := LaneNow(q), |Table(q)|;
      HandleTurns(turns);
      SameDrainHolds(lane, LaneNow(q), keys, body);
      landed := Table(q)[rows..];
    }

    /** The second and third steps of a drain, with others taking turns before each. */
    method InsertAndRemove(q: QueueTable, keys: seq<nat>, body: bytes, fate: Fate, duringInsertion: seq<Turn>,
                           duringRemoval: seq<Turn>)
      returns (r: Result<(), DrainError>, ghost early: seq<Line>, ghost late: seq<Line>)
      requires Valid() && HasRead(LaneNow(q), keys, body) && !fate.QueueUnreadable?
      requires forall t :: t in duringInsertion + duringRemoval ==> TurnOk(t, config.partIdNid)
      requires |Now().history| + |duringInsertion| + |duringRemoval| <= MAX_SAVES
      modifies this, cache
      ensures Valid() && old(run) <= run && LaneNow(q).phase.Idle? && |old(Now().history)| <= |Now().history|
      ensures r.Ok? <==> fate.Completes?
      ensures Table(q) == old(Table(q)) + early + (if Lands(fate) then Lines(body) else []) + late
      ensures NothingLands(duringInsertion, q) ==> early == []
      ensures NothingLands(duringRemoval, q) ==> late == []
      ensures LaneNow(q).removed == old(if fate.Completes? then Upto(LaneNow(q)) else LaneNow(q).removed)
    {
      hide Execute, Apply, Removed, HasRead, HasArchived, Lines, AttemptOf, InsertEvents, TurnOk, Upto, NothingLands,
           InFlight;
      late := [];
      early := WaitFor(q, keys, body, duringInsertion);
      r := InsertBatch(q, keys, body, fate);
      if r.Ok? {
        late := WaitFor(q, keys, body, duringRemoval);
        r := RemoveEntries(q, keys, fate.Completes?);
      }
    }

    /** One drain of a queue, with others taking turns whenever it waits. When it succeeds, exactly
        the saves committed since it began are left in the queue. `early` and `late` are the rows
        that insertions of earlier drains add meanwhile. */
    method DrainPartSheetQueue(q: QueueTable, skipIfEmpty: bool, fate: Fate, duringInsertion: seq<Turn>,
                               duringRemoval: seq<Turn>)
      returns (r: Result<(), DrainError>, ghost early: seq<Line>, ghost late: seq<Line>)
      requires Valid() && LaneNow(q).phase.Idle?
      requires forall t :: t in duringInsertion + duringRemoval ==> TurnOk(t, config.partIdNid)
      requires |Now().history| + |duringInsertion| + |duringRemoval| <= MAX_SAVES
      modifies this, cache
      ensures Valid() && old(run) <= run && LaneNow(q).phase.Idle?
      ensures |old(Now().history)| <= |Now().history|
      ensures
        var (keys, body) := QueueBatch(old(cache.State()), q);
        var skipped := skipIfEmpty && keys == [];
        && (r.Ok? <==> fate.Completes? || (skipped && !fate.QueueUnreadable?))
        && Table(q) == old(Table(q)) + early + (if Lands(fate) && !skipped then Lines(body) else []) + late
      ensures NothingLands(duringInsertion, q) ==> early == []
      ensures NothingLands(duringRemoval, q) ==> late == []
      ensures LaneNow(q).removed == if r.Ok? then |old(Now().history)| else old(LaneNow(q).removed)
      ensures QueueHolds(cache.State().Queue(q), Rows(config, Now().history, q), Offset(q), LaneNow(q).removed)
    {
      hide Execute, Apply, QueueBatch, Removed, HasRead, HasArchived, Lines, Snapshot, AttemptOf, InsertEvents,
           TurnOk, QueueHolds, Upto, Rows, RowText, NothingLands, InFlight;
      if fate.QueueUnreadable? {
        QueueNow(q);
        return Err(GetBatch), [], [];
      }
      ghost var before := run;
      var keys, body := GetQueueBatch(q);
      if skipIfEmpty && keys == [] {
        EmptyMeansCaughtUp(config, before, q);
        GiveUpDrain(q);
        QueueNow(q);
        return Ok(()), [], [];
      }
      r, early, late := InsertAndRemove(q, keys, body, fate, duringInsertion, duringRemoval);
      QueueNow(q);
    }

    /** A drain goes on from one point where it waits to the next. */
    method ResumeDrain(q: QueueTable, p: Progress, skipIfEmpty: bool, fate: Fate, ghost start: DrainStart)
      returns (next: Progress)
      requires Valid() && !p.Finished? && DrainAt(LaneNow(q), p, start, skipIfEmpty, fate)
      requires start.saves <= |Now().history|
      modifies this, cache`generalQueue, cache`operationQueue
      ensures Valid() && old(run) <= run && DrainAt(LaneNow(q), next, start, skipIfEmpty, fate)
      ensures Remaining(next) < Remaining(p)
      ensures LaneNow(OtherQueue(q)) == old(LaneNow(OtherQueue(q))) && Now().history == old(Now().history)
      ensures old(Table(q)) <= Table(q) && Table(OtherQueue(q)) == old(Table(OtherQueue(q)))
    {
      match p {
        case NotStarted =>
          next := BeginDrain(q, skipIfEmpty, fate, start);
        case HasBatch(keys, body) =>
          next := InsertDrain(q, keys, body, skipIfEmpty, fate, start);
        case Inserted(keys) =>
          next := RemoveDrain(q, keys, skipIfEmpty, fate, start);
      }
    }

    method BeginDrain(q: QueueTable, skipIfEmpty: bool, fate: Fate, ghost start: DrainStart) returns (next: Progress)
      requires Valid() && DrainAt(LaneNow(q), NotStarted, start, skipIfEmpty, fate) && start.saves <= |Now().history|
      modifies this`run, this`generalInsertions, this`operationInsertions
      ensures Valid() && old(run) <= run && DrainAt(LaneNow(q), next, start, skipIfEmpty, fate)
      ensures Remaining(next) < Remaining(NotStarted)
      ensures LaneNow(OtherQueue(q)) == old(LaneNow(OtherQueue(q))) && Now().history == old(Now().history)
      ensures cache.State() == old(cache.State())
    {
      hide Execute, QueueBatch, InFlight, WasSent;
      if fate.QueueUnreadable? {
        return Finished(Err(GetBatch));
      }
      ghost var before := run;
      var keys, body := GetQueueBatch(q);
      if skipIfEmpty && keys == [] {
        EmptyMeansCaughtUp(config, before, q);
        NotSentYet(q);
        GiveUpDrain(q);
        return Finished(Ok(()));
      }
      return HasBatch(keys, body);
    }

    method InsertDrain(q: QueueTable, keys: seq<nat>, body: bytes, skipIfEmpty: bool, fate: Fate,
                       ghost start: DrainStart)
      returns (next: Progress)
      requires Valid() && DrainAt(LaneNow(q), HasBatch(keys, body), start, skipIfEmpty, fate)
      modifies this`generalTable, this`operationTable, this`generalInsertions, this`operationInsertions, this`run
      ensures Valid() && old(run) <= run && DrainAt(LaneNow(q), next, start, skipIfEmpty, fate)
      ensures Remaining(next) < Remaining(HasBatch(keys, body))
      ensures LaneNow(OtherQueue(q)) == old(LaneNow(OtherQueue(q))) && Now().history == old(Now().history)
      ensures old(Table(q)) <= Table(q) && Table(OtherQueue(q)) == old(Table(OtherQueue(q)))
    {
      hide Execute, Lines, InFlight, InsertEvents, WasSent;
      ghost var before := run;
      var inserted := InsertBatch(q, keys, body, fate);
      InsertionIsSent(config, before, q, fate);
      return if inserted.Ok? then Inserted(keys) else Finished(inserted);
    }

    method RemoveDrain(q: QueueTable, keys: seq<nat>, skipIfEmpty: bool, fate: Fate, ghost start: DrainStart)
      returns (next: Progress)
      requires Valid() && DrainAt(LaneNow(q), Inserted(keys), start, skipIfEmpty, fate)
      modifies this`run, cache`generalQueue, cache`operationQueue
      ensures Valid() && old(run) <= run && DrainAt(LaneNow(q), next, start, skipIfEmpty, fate)
      ensures Remaining(next) < Remaining(Inserted(keys))
      ensures LaneNow(OtherQueue(q)) == old(LaneNow(OtherQueue(q))) && Now().history == old(Now().history)
    {
      hide Execute, Removed, InFlight;
      ghost var before := run;
      var r := RemoveEntries(q, keys, fate.Completes?);
      RemovalLeavesBatches(config, before, q, fate.Completes?);
      return Finished(r);
    }

    /** Both drains of a tick, polled in any order and as often as it takes, with handlers taking
        turns in between. A drain that succeeds has archived everything saved before the tick. */
    method DrainBothQueues(skipIfEmpty: bool, tick: Tick)
      returns (general: Result<(), DrainError>, operation: Result<(), DrainError>)
      requires Valid() && LaneNow(General).phase.Idle? && LaneNow(Operation).phase.Idle?
      requires PollsOk(tick.polls, config.partIdNid) && |Now().history| + |tick.polls| <= MAX_SAVES
      modifies this, cache
      ensures Valid() && old(run) <= run && LaneNow(General).phase.Idle? && LaneNow(Operation).phase.Idle?
      ensures |old(Now().history)| <= |Now().history| <= |old(Now().history)| + |tick.polls|
      ensures NothingSaved(tick.polls) ==> |Now().history| == |old(Now().history)|
      ensures old(generalTable) <= generalTable && old(operationTable) <= operationTable
      ensures HasDrained(LaneNow(General), old(StartOf(Now(), General)), skipIfEmpty, tick.general, general)
      ensures HasDrained(LaneNow(Operation), old(StartOf(Now(), Operation)), skipIfEmpty, tick.operation, operation)
    {
      hide Execute, Apply, TurnOk, DrainAt, SameDrain, NothingLands, HasDrained, InFlight;
      ghost var g0, o0 := StartOf(Now(), General), StartOf(Now(), Operation);
      var g, o := NotStarted, NotStarted;
      DrainStarts(Now(), General, skipIfEmpty, tick.general);
      DrainStarts(Now(), Operation, skipIfEmpty, tick.operation);
      for i := 0 to |tick.polls|
        invariant Valid() && old(run) <= run
        invariant DrainAt(LaneNow(General), g, g0, skipIfEmpty, tick.general)
        invariant DrainAt(LaneNow(Operation), o, o0, skipIfEmpty, tick.operation)
        invariant g0.saves <= |Now().history| <= g0.saves + i
        invariant NothingSaved(tick.polls) ==> |Now().history| == g0.saves
        invariant old(generalTable) <= generalTable && old(operationTable) <= operationTable
      {
        var poll := tick.polls[i];
        if poll.Handle? {
          ghost var general0, operation0 := LaneNow(General), LaneNow(Operation);
          HandleTurn(poll.turn);
          SameDrainKeeps(general0, LaneNow(General), g, g0, skipIfEmpty, tick.general);
          SameDrainKeeps(operation0, LaneNow(Operation), o, o0, skipIfEmpty, tick.operation);
        } else if poll.queue.General? {
          if !g.Finished? {
            g := ResumeDrain(General, g, skipIfEmpty, tick.general, g0);
          }
        } else if !o.Finished? {
          o := ResumeDrain(Operation, o, skipIfEmpty, tick.operation, o0);
        }
      }
      while !g.Finished? || !o.Finished?
        invariant Valid() && old(run) <= run
        invariant DrainAt(LaneNow(General), g, g0, skipIfEmpty, tick.general)
        invariant DrainAt(LaneNow(Operation), o, o0, skipIfEmpty, tick.operation)
        invariant g0.saves <= |Now().history| <= g0.saves + |tick.polls|
        invariant NothingSaved(tick.polls) ==> |Now().history| == g0.saves
        invariant old(generalTable) <= generalTable && old(operationTable) <= operationTable
        decreases Remaining(g) + Remaining(o)
      {
        if !g.Finished? {
          g := ResumeDrain(General, g, skipIfEmpty, tick.general, g0);
        } else {
          o := ResumeDrain(Operation, o, skipIfEmpty, tick.operation, o0);
        }
      }
      DrainEnds(LaneNow(General), g, g0, skipIfEmpty, tick.general);
      DrainEnds(LaneNow(Operation), o, o0, skipIfEmpty, tick.operation);
      return g.result, o.result;
    }

    /** What a task has come to, for one of the queues. */
    ghost predicate HasServed(q: QueueTable, ticks: seq<Tick>, marks: seq<World>)
      reads this, cache
      requires |marks| == |ticks|
    {
      var lane, queue := LaneNow(q), cache.State().Queue(q);
      // The queue holds exactly what has not left it.
      && QueueHolds(queue, Rows(config, Now().history, q), Offset(q), lane.removed)
      // Whenever a removal goes through, what was saved before its tick has left the queue for good;
      && (forall i :: 0 <= i < |ticks| && FateOf(ticks[i], q).Completes? ==> |marks[i].history| <= lane.removed)
      // so that a last tick during which nothing is saved leaves the queue empty.
      && (ticks != [] && FateOf(ticks[|ticks| - 1], q).Completes? && NothingSaved(ticks[|ticks| - 1].polls) ==>
            lane.removed == |Now().history| && queue == map[])
      // Whenever an insertion lands, what was saved before its tick is in the archive.
      && (forall i :: 0 <= i < |ticks| && Lands(FateOf(ticks[i], q)) ==>
            HasRows(config, Now().history, q, Table(q), |marks[i].history|))
      // The first tick sends what it reads, and the later ones send nothing empty.
      && (ticks != [] && !FateOf(ticks[0], q).QueueUnreadable? ==> IsSent(lane, |marks[0].LaneOf(q).attempts|))
      && (|ticks| > 1 ==>
            forall a :: |marks[1].LaneOf(q).attempts| <= a && IsSent(lane, a) ==> lane.attempts[a].keys != [])
    }

    /** What the drains of both queues have come to so far. */
    ghost predicate HaveDrained(ticks: seq<Tick>, marks: seq<World>)
      reads this
    {
      forall q :: DrainsHold(q, FatesOf(ticks, q), marks, Now())
    }

    /** The periodic drain over a number of ticks, each of which drains both queues. `marks` are the
        worlds in which the ticks begin. The status sent once, after the first tick, is whether both
        insertions and both removals went through. */
    method DrainPartSheetsTask(ticks: seq<Tick>) returns (firstRunStatus: Option<bool>, ghost marks: seq<World>)
      requires Valid() && LaneNow(General).phase.Idle? && LaneNow(Operation).phase.Idle?
      requires forall i :: 0 <= i < |ticks| ==> PollsOk(ticks[i].polls, config.partIdNid)
      requires |Now().history| + PollCount(ticks) <= MAX_SAVES
      modifies this, cache
      ensures Valid() && old(run) <= run
      ensures firstRunStatus ==
              if ticks == [] then None else Some(ticks[0].general.Completes? && ticks[0].operation.Completes?)
      ensures AreMarks(ticks, marks, Now()) && (ticks != [] ==> marks[0] == old(Now()))
      ensures HasServed(General, ticks, marks) && HasServed(Operation, ticks, marks)
    {
      hide Execute, Apply, PollsOk, HasDrained, DrainsHold, AreMarks, NothingSaved, InFlight, HasServed;
      firstRunStatus, marks := None, [];
      assert ticks[..0] == [];
      NothingDrained();
      for i := 0 to |ticks|
        invariant Valid() && old(run) <= run && LaneNow(General).phase.Idle? && LaneNow(Operation).phase.Idle?
        invariant firstRunStatus ==
                  if i == 0 then None else Some(ticks[0].general.Completes? && ticks[0].operation.Completes?)
        invariant |old(Now().history)| <= |Now().history| <= |old(Now().history)| + PollCount(ticks[..i])
        invariant |marks| == i && AreMarks(ticks[..i], marks, Now())
        invariant if i == 0 then Now() == old(Now()) else marks[0] == old(Now())
        invariant HaveDrained(ticks[..i], marks)
      {
        PollsSoFar(ticks, i);
        ghost var before, w := run, Now();
        RemovedAreSaves(General);
        RemovedAreSaves(Operation);
        var generalResult, operationResult := DrainBothQueues(firstRunStatus.Some?, ticks[i]);
        TickIsOver(config, ticks[..i], ticks[i], ticks[..i + 1], marks, before, run, generalResult, operationResult);
        MarksGoOn(ticks[..i], ticks[i], ticks[..i + 1], marks, w, Now());
        marks := marks + [w];
        if firstRunStatus.None? {
          firstRunStatus := Some(generalResult.Ok? && operationResult.Ok?);
        }
      }
      assert ticks[..|ticks|] == ticks;
      MarksAreCounted(ticks, marks, Now());
      TaskIsOver(General, ticks, marks);
      TaskIsOver(Operation, ticks, marks);
    }

    /** The queue holds exactly the saves that have not left it. */
    lemma QueueNow(q: QueueTable)
      requires Valid()
      ensures QueueHolds(cache.State().Queue(q), Rows(config, Now().history, q), Offset(q), LaneNow(q).removed)
    {
      hide Execute, QueueHolds;
      ReachedQueue(config, run, q);
    }

    lemma RemovedAreSaves(q: QueueTable)
      requires Valid()
      ensures LaneNow(q).removed <= |Now().history|
    {
      hide Execute;
      QueueNow(q);
    }

    /** A batch that was just read has not been sent. */
    lemma NotSentYet(q: QueueTable)
      requires Valid() && LaneNow(q).phase.Taken?
      ensures LaneNow(q).phase.attempt == |LaneNow(q).attempts| - 1
      ensures !WasSent(LaneNow(q).attempts[LaneNow(q).phase.attempt])
    {
      hide Execute, QueueHolds, AttemptOk, RemovalsDisjoint, AttemptsOrdered, ArchiveOk, PrefixOk, CountsOk;
      ReachedQueue(config, run, q);
    }

    lemma TaskIsOver(q: QueueTable, ticks: seq<Tick>, marks: seq<World>)
      requires Valid() && AreMarks(ticks, marks, Now()) && DrainsHold(q, FatesOf(ticks, q), marks, Now())
      ensures HasServed(q, ticks, marks)
    {
      hide Execute, QueueHolds, RowText, Rows, IsArchivedTo, InFlight, Lands, WasSent, HasRows, NothingSaved;
      QueueNow(q);
      RemovedAreSaves(q);
      if LaneNow(q).removed == |Now().history| {
        NothingQueued(cache.State().Queue(q), Rows(config, Now().history, q), Offset(q));
      }
      forall i | 0 <= i < |ticks| ensures DrainHolds(LaneNow(q), marks[i], FateOf(ticks[i], q)) {
        assert FatesOf(ticks, q)[i] == FateOf(ticks[i], q);
      }
      forall i | 0 <= i < |ticks| && Lands(FateOf(ticks[i], q))
        ensures HasRows(config, Now().history, q, Table(q), |marks[i].history|)
      {
        LandedIsArchived(q, |marks[i].history|);
      }
    }

    lemma LandedIsArchived(q: QueueTable, saves: nat)
      requires Valid() && IsArchivedTo(LaneNow(q), saves)
      ensures HasRows(config, Now().history, q, Table(q), saves)
    {
      hide Execute, IsArchivedTo, LaneInv, HasRows;
      ReachedQueue(config, run, q);
      LandedRows(config, Now().history, q, cache.State().Queue(q), LaneNow(q), saves);
    }

    lemma NothingDrained()
      ensures HaveDrained([], []) && AreMarks([], [], Now())
    {
      NoDrainYet(Now());
      assert FatesOf([], General) == [] && FatesOf([], Operation) == [];
    }
  }

  /** A table holds the rows of the first saves. */
  ghost predicate HasRows(cfg: Config, history: seq<Save>, q: QueueTable, table: seq<Line>, saves: nat) {
    saves <= |history| && forall save: nat :: save < saves ==> RowText(cfg, history[save], q) in table
  }

  lemma LandedRows(cfg: Config, history: seq<Save>, q: QueueTable, queue: map<nat, Line>, lane: Lane, saves: nat)
    requires LaneInv(queue, Rows(cfg, history, q), Offset(q), lane) && IsArchivedTo(lane, saves)
    ensures HasRows(cfg, history, q, lane.table, saves)
  {
    hide IsArchivedTo, LaneInv;
    if saves > 0 {
      ArchivedRows(queue, Rows(cfg, history, q), Offset(q), lane, saves, saves - 1);
    }
    forall save: nat | save < saves ensures RowText(cfg, history[save], q) in lane.table {
      ArchivedRows(queue, Rows(cfg, history, q), Offset(q), lane, saves, save);
    }
  }

  lemma MarksAreCounted(ticks: seq<Tick>, marks: seq<World>, now: World)
    requires AreMarks(ticks, marks, now)
    ensures |marks| == |ticks|
  {
  }

  /** The worlds in which ticks begin: there are no fewer saves in later ones, and as many after a
      tick as before it when none is finished in it. */
  ghost predicate AreMarks(ticks: seq<Tick>, marks: seq<World>, now: World) {
    && |marks| == |ticks|
    && (forall i :: 0 <= i < |marks| ==> |marks[i].history| <= |now.history|)
    && (forall i, j :: 0 <= i < j < |marks| ==> |marks[i].history| <= |marks[j].history|)
    && (forall i :: 0 <= i < |ticks| && NothingSaved(ticks[i].polls) ==>
          |(marks + [now])[i + 1].history| == |marks[i].history|)
  }

  lemma MarksGoOn(ticks: seq<Tick>, tick: Tick, all: seq<Tick>, marks: seq<World>, w: World, next: World)
    requires AreMarks(ticks, marks, w) && all == ticks + [tick] && |w.history| <= |next.history|
    requires NothingSaved(tick.polls) ==> |next.history| == |w.history|
    ensures AreMarks(all, marks + [w], next)
  {
    hide NothingSaved;
    forall i | 0 <= i < |all| && NothingSaved(all[i].polls)
      ensures |(marks + [w] + [next])[i + 1].history| == |(marks + [w])[i].history|
    {
      if i < |ticks| {
        assert all[i] == ticks[i];
      }
    }
  }

  /** One tick more of a task. */
  lemma TickIsOver(cfg: Config, ticks: seq<Tick>, tick: Tick, all: seq<Tick>, marks: seq<World>, before: seq<Event>,
                   run: seq<Event>, general: Result<(), DrainError>, operation: Result<(), DrainError>)
    requires all == ticks + [tick] && before <= run && Execute(cfg, before).Some? && Execute(cfg, run).Some?
    requires
      var w := Execute(cfg, before).value;
      && (forall q :: w.LaneOf(q).phase.Idle? && w.LaneOf(q).removed <= |w.history|)
      && (forall q :: DrainsHold(q, FatesOf(ticks, q), marks, w))
    requires
      var w, next := Execute(cfg, before).value, Execute(cfg, run).value;
      && HasDrained(next.LaneOf(General), StartOf(w, General), ticks != [], tick.general, general)
      && HasDrained(next.LaneOf(Operation), StartOf(w, Operation), ticks != [], tick.operation, operation)
    ensures forall q ::
              DrainsHold(q, FatesOf(all, q), marks + [Execute(cfg, before).value], Execute(cfg, run).value)
    ensures ticks == [] ==> (general.Ok? <==> tick.general.Completes?) && (operation.Ok? <==> tick.operation.Completes?)
  {
    hide Execute, DrainsHold, GoesOn, IsSent;
    var w, next := Execute(cfg, before).value, Execute(cfg, run).value;
    forall q ensures DrainsHold(q, FatesOf(all, q), marks + [w], next) {
      assert before + run[|before|..] == run;
      RunGoesOn(cfg, before, run[|before|..], q, |w.LaneOf(q).attempts|);
      assert FatesOf(all, q) == FatesOf(ticks, q) + [FateOf(tick, q)];
      OneDrainMore(q, FatesOf(ticks, q), marks, w, next, FateOf(tick, q), if q.General? then general else operation);
    }
  }

  lemma PollsSoFar(ticks: seq<Tick>, i: nat)
    requires i < |ticks|
    ensures PollCount(ticks[..i]) + |ticks[i].polls| == PollCount(ticks[..i + 1]) <= PollCount(ticks)
  {
    assert ticks[..i + 1][..i] == ticks[..i];
    PollCountGrows(ticks, i + 1);
  }

  lemma {:induction false} PollCountGrows(ticks: seq<Tick>, i: nat)
    requires i <= |ticks|
    ensures PollCount(ticks[..i]) <= PollCount(ticks)
  {
    if i < |ticks| {
      assert ticks[..|ticks| - 1][..i] == ticks[..i];
      PollCountGrows(ticks[..|ticks| - 1], i);
    } else {
      assert ticks[..i] == ticks;
    }
  }
}
