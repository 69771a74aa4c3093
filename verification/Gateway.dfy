/** The gateway as a whole: machines that save and create identifiers, two drainers, archive
    tables filled by insertions that may fail, land, land unnoticed or land late, and crashes
    between any two steps. */
module Gateway {
  import opened Wrappers
  import opened Bytes
  import opened Calendar
  import opened Variants
  import opened PartSheets
  import opened PartIdentifier
  import opened AsciiText
  import opened Cache
  import opened SaveRequest
  import opened Outbox
  import opened Ordering
  import Json

  datatype Config = Config(threshold: nat, floats: Json.FloatFormat, partIdNid: u32, unicode: UnicodeReader)

  /** The tables on disk and the archive tables survive a crash; the phases of the drainers and
      the admitted requests do not. `history` is every committed save, in commit order, and
      `creations` every identifier creation that took a serial number, successful or not. */
  datatype World = World(
    store: Store,
    history: seq<Save>,
    general: Lane,
    operation: Lane,
    admitted: nat,
    creations: seq<Creation>)
  {
    function LaneOf(q: QueueTable): Lane {
      if q.General? then general else operation
    }

    function WithLane(q: QueueTable, lane: Lane): World {
      if q.General? then this.(general := lane) else this.(operation := lane)
    }
  }

  const START: World := World(EMPTY_STORE, [], NEW_LANE, NEW_LANE, 0, [])

  datatype Event =
    | Admit
    | Abandon
    | Commit(ctx: SheetsContext, values: seq<DataValue>, machine: Utf8, savedAt: Instant)
    | Create(reference: Utf8, batch: Code2, line: Code2, today: Date)
    | SnapshotQueue(queue: QueueTable)
    | SendBatch(queue: QueueTable)
    | LandBatch(queue: QueueTable, attempt: nat)
    | AcknowledgeBatch(queue: QueueTable)
    | FailDrain(queue: QueueTable)
    | RemoveBatch(queue: QueueTable)
    | Crash

  /** The values the OPC-UA library can hand over. */
  predicate AllRepresentable(values: seq<DataValue>) {
    forall i :: 0 <= i < |values| && values[i].value.Some? ==> Representable(values[i].value.value)
  }

  /** The save a request makes of what it has read, if it makes one. */
  function SaveOf(cfg: Config, ctx: SheetsContext, values: seq<DataValue>, machine: Utf8, savedAt: Instant)
    : Option<Save>
  {
    if Initialize(ctx.general, ctx.operation, cfg.partIdNid) != Some(ctx) || !AllRepresentable(values) then None
    else
      match SliceSheets(ctx, values)
      case Err(_) => None
      case Ok((part, general, operation)) => Some(Save(savedAt, machine, part, general, operation))
  }

  function WithLaneStep(w: World, q: QueueTable, lane: Option<Lane>): Option<World> {
    match lane
    case None => None
    case Some(next) => Some(w.WithLane(q, next))
  }

  /** The world after a save commits; a save that cannot be encoded never does. */
  function Committed(cfg: Config, w: World, save: Save): Option<World> {
    match Saved(cfg.floats, w.store, save)
    case Err(_) => None
    case Ok(store) =>
      if w.admitted == 0 then None
      else Some(w.(store := store, history := w.history + [save], admitted := w.admitted - 1))
  }

  function Created(w: World, reference: Utf8, batch: Code2, line: Code2, today: Date): World {
    w.(store := SerialTaken(w.store, today),
       creations := w.creations + [Creation(reference, batch, line, today, NextSerial(w.store, today))])
  }

  function Snapshot(w: World, q: QueueTable): World {
    var (keys, body) := QueueBatch(w.store, q);
    w.WithLane(q, TakeSnapshot(w.LaneOf(q), |w.history|, keys, body))
  }

  function Drained(w: World, q: QueueTable): Option<World> {
    match CommitRemoval(w.LaneOf(q))
    case None => None
    case Some(lane) =>
      var keys := w.LaneOf(q).attempts[w.LaneOf(q).phase.attempt].keys;
      Some(w.WithLane(q, lane).(store := Removed(w.store, q, keys)))
  }

  function Crashed(w: World): World {
    w.(general := GiveUp(w.general), operation := GiveUp(w.operation), admitted := 0)
  }

  /** The world after an event, when the event can happen. */
  function Apply(cfg: Config, w: World, e: Event): Option<World> {
    match e
    case Admit => if CheckEnqueuing(w.store, cfg.threshold).Ok? then Some(w.(admitted := w.admitted + 1)) else None
    case Abandon => if w.admitted > 0 then Some(w.(admitted := w.admitted - 1)) else None
    case Commit(ctx, values, machine, savedAt) =>
      (match SaveOf(cfg, ctx, values, machine, savedAt)
       case None => None
       case Some(save) => Committed(cfg, w, save))
    case Create(reference, batch, line, today) => Some(Created(w, reference, batch, line, today))
    case SnapshotQueue(q) => if w.LaneOf(q).phase.Idle? then Some(Snapshot(w, q)) else None
    case SendBatch(q) => WithLaneStep(w, q, Send(w.LaneOf(q)))
    case LandBatch(q, a) => WithLaneStep(w, q, Land(w.LaneOf(q), a))
    case AcknowledgeBatch(q) => WithLaneStep(w, q, Acknowledge(w.LaneOf(q)))
    case FailDrain(q) => Some(w.WithLane(q, GiveUp(w.LaneOf(q))))
    case RemoveBatch(q) => Drained(w, q)
    case Crash => Some(Crashed(w))
  }

  /** The world a run of events leads to from another, when each of them can happen in turn. */
  function ExecuteFrom(cfg: Config, start: World, run: seq<Event>): Option<World> {
    if run == [] then Some(start)
    else
      match ExecuteFrom(cfg, start, run[..|run| - 1])
      case None => None
      case Some(w) => Apply(cfg, w, run[|run| - 1])
  }

  /** The world a run leads to from a fresh cache and empty archive tables. */
  function Execute(cfg: Config, run: seq<Event>): Option<World> {
    ExecuteFrom(cfg, START, run)
  }

  lemma StepForward(cfg: Config, run: seq<Event>, w: World, e: Event)
    requires Execute(cfg, run) == Some(w)
    ensures Execute(cfg, run + [e]) == Apply(cfg, w, e)
  {
    assert (run + [e])[..|run|] == run;
  }

  // ---------------------------------------------------------------------------
  // The outbox invariant
  // ---------------------------------------------------------------------------

  function Offset(q: QueueTable): nat {
    if q.General? then 0 else 1
  }

  /** The archive row of a save that was committed. */
  function RowText(cfg: Config, save: Save, q: QueueTable): Line {
    match RowOf(cfg.floats, save, q)
    case Ok(row) => row
    case Err(_) => []
  }

  /** What the archive table of a queue should hold: the rows of all saves, in order. */
  function Rows(cfg: Config, history: seq<Save>, q: QueueTable): (rows: seq<Line>)
    ensures |rows| == |history|
    ensures forall i :: 0 <= i < |history| ==> rows[i] == RowText(cfg, history[i], q)
  {
    seq(|history|, i requires 0 <= i < |history| => RowText(cfg, history[i], q))
  }

  lemma RowsSnoc(cfg: Config, history: seq<Save>, save: Save, q: QueueTable)
    ensures Rows(cfg, history + [save], q) == Rows(cfg, history, q) + [RowText(cfg, save, q)]
  {
  }

  /** The first save counts from 0, and each takes two numbers, as long as they last. */
  const MAX_SAVES: nat := 0x8000_0000_0000_0000

  /** The sequence number the save of a rank takes, in 64-bit arithmetic. */
  function SequenceAt(save: nat): nat {
    (2 * save) % U64
  }

  /** The counter after a number of saves: absent, or at the number the last one took. */
  ghost predicate CounterAt(counter: Option<u64>, saves: nat) {
    counter == if saves == 0 then None else Some(SequenceAt(saves - 1))
  }

  /** The last save of a part. */
  function LastSave(history: seq<Save>, part: PartId): Option<Save> {
    if history == [] then None
    else
      var last := history[|history| - 1];
      if last.part == part then Some(last) else LastSave(history[..|history| - 1], part)
  }

  lemma LastSaveSnoc(history: seq<Save>, save: Save, part: PartId)
    ensures LastSave(history + [save], part) == if save.part == part then Some(save) else LastSave(history, part)
  {
    assert (history + [save])[..|history|] == history;
  }

  /** The cache table holds, for each part ever saved, the encoding of its last general sheet. */
  ghost predicate SheetsOk(store: Store, history: seq<Save>) {
    && (store.sheets.None? <==> history == [])
    && (store.sheets.Some? ==>
          && (forall p :: p in store.sheets.value ==> LastSave(history, p).Some?)
          && (forall p: PartId :: LastSave(history, p).Some? ==>
                && p in store.sheets.value
                && EncodeForCache(LastSave(history, p).value.general) == Ok(store.sheets.value[p])))
  }

  ghost predicate NamesItsPart(cfg: Config, save: Save) {
    exists i ::
      && 0 <= i < |save.general| && save.general[i].id == cfg.partIdNid
      && NamesPart(save.general[i].value, save.part)
  }

  /** Every committed save could be stored, and its general sheet names the part it is about. */
  ghost predicate SaveOk(cfg: Config, save: Save) {
    Storable(save.general) && NamesItsPart(cfg, save) && ValidatePartIdentifier(save.part).Ok?
  }

  ghost predicate SavesOk(cfg: Config, history: seq<Save>) {
    forall i :: 0 <= i < |history| ==> SaveOk(cfg, history[i])
  }

  ghost predicate HistoryOk(cfg: Config, w: World) {
    SavesOk(cfg, w.history) && CounterAt(w.store.counter, |w.history|) && SheetsOk(w.store, w.history)
  }

  ghost predicate QueueOk(cfg: Config, w: World, q: QueueTable) {
    LaneInv(w.store.Queue(q), Rows(cfg, w.history, q), Offset(q), w.LaneOf(q))
  }

  lemma SheetsAreRepresentable(ctx: SheetsContext, values: seq<DataValue>, general: seq<Item>, operation: seq<Item>)
    requires AreSheets(ctx, values, general, operation) && AllRepresentable(values)
    ensures |general| == |ctx.general| && forall i :: 0 <= i < |general| ==> Representable(general[i].value)
    ensures forall i :: 0 <= i < |general| ==> general[i].id == ctx.general[i].id
  {
    hide Representable;
    forall i | 0 <= i < |general| ensures Representable(general[i].value) {
      assert values[..|ctx.general|][i] == values[i];
    }
  }

  /** What is known of the save a request makes. */
  lemma SaveIsSliced(cfg: Config, ctx: SheetsContext, values: seq<DataValue>, machine: Utf8, savedAt: Instant)
    requires SaveOf(cfg, ctx, values, machine, savedAt).Some?
    ensures AllRepresentable(values)
    ensures ctx.partIdIndex < |ctx.general| && ctx.general[ctx.partIdIndex].id == cfg.partIdNid
    ensures
      var save := SaveOf(cfg, ctx, values, machine, savedAt).value;
      && save.machine == machine && save.savedAt == savedAt
      && SliceSheets(ctx, values) == Ok((save.part, save.general, save.operation))
  {
    hide SliceSheets, AllRepresentable;
  }

  lemma CommittedSaveOk(cfg: Config, ctx: SheetsContext, values: seq<DataValue>, machine: Utf8, savedAt: Instant)
    requires SaveOf(cfg, ctx, values, machine, savedAt).Some?
    requires RowOf(cfg.floats, SaveOf(cfg, ctx, values, machine, savedAt).value, General).Ok?
    ensures SaveOk(cfg, SaveOf(cfg, ctx, values, machine, savedAt).value)
  {
    hide AreSheets, ValidatePartIdentifier, Representable, AllRepresentable, NamesPart, SliceSheets, SaveOf, Initialize,
         EncodeForArchive;
    var save := SaveOf(cfg, ctx, values, machine, savedAt).value;
    SaveIsSliced(cfg, ctx, values, machine, savedAt);
    SlicingIff(ctx, values, save.part, save.general, save.operation);
    ArchivedIffSupported(cfg.floats, savedAt, machine, save.part, save.general);
    SheetsAreRepresentable(ctx, values, save.general, save.operation);
    assert save.general[ctx.partIdIndex].id == cfg.partIdNid;
  }

  lemma SheetsAfterSave(store: Store, history: seq<Save>, save: Save, cached: bytes, general: Line, operation: Line)
    requires SheetsOk(store, history)
    requires EncodeForCache(save.general) == Ok(cached)
    ensures SheetsOk(Enqueued(store, save.part, cached, general, operation), history + [save])
  {
    var next := Enqueued(store, save.part, cached, general, operation);
    forall p: PartId
      ensures LastSave(history + [save], p) == if save.part == p then Some(save) else LastSave(history, p)
    {
      LastSaveSnoc(history, save, p);
    }
    assert store.sheets.None? ==> forall p: PartId :: LastSave(history, p).None?;
  }

  lemma SequenceOfSave(store: Store, saves: nat)
    requires CounterAt(store.counter, saves) && saves < MAX_SAVES
    ensures NextSequence(store.counter) == KeyOf(saves, 0)
    ensures (NextSequence(store.counter) + 1) % U64 == KeyOf(saves, 1)
  {
  }

  lemma CommitStore(cfg: Config, w: World, save: Save)
    requires Committed(cfg, w, save).Some?
    ensures EncodeForCache(save.general).Ok? && RowOf(cfg.floats, save, General).Ok? &&
            RowOf(cfg.floats, save, Operation).Ok?
    ensures Committed(cfg, w, save).value.store ==
            Enqueued(w.store, save.part, EncodeForCache(save.general).value,
                     RowText(cfg, save, General), RowText(cfg, save, Operation))
    ensures Committed(cfg, w, save).value.history == w.history + [save]
    ensures forall q :: Committed(cfg, w, save).value.LaneOf(q) == w.LaneOf(q)
    ensures Committed(cfg, w, save).value.store.counter == Some(NextSequence(w.store.counter))
    ensures Committed(cfg, w, save).value.store.serials == w.store.serials
    ensures Committed(cfg, w, save).value.creations == w.creations
    ensures Committed(cfg, w, save).value.admitted == w.admitted - 1
  {
    hide EncodeForCache, RowOf, NextSequence;
  }

  lemma CommitEvent(cfg: Config, w: World, e: Event)
    requires e.Commit? && Apply(cfg, w, e).Some?
    ensures SaveOf(cfg, e.ctx, e.values, e.machine, e.savedAt).Some?
    ensures Apply(cfg, w, e) == Committed(cfg, w, SaveOf(cfg, e.ctx, e.values, e.machine, e.savedAt).value)
  {
    hide SaveOf, Committed;
  }

  lemma CommitKeepsSaves(cfg: Config, history: seq<Save>, save: Save)
    requires SavesOk(cfg, history) && SaveOk(cfg, save)
    ensures SavesOk(cfg, history + [save])
  {
  }

  lemma CounterAfterSave(store: Store, saves: nat, part: PartId, cached: bytes, general: Line, operation: Line)
    requires CounterAt(store.counter, saves) && saves < MAX_SAVES
    ensures CounterAt(Enqueued(store, part, cached, general, operation).counter, saves + 1)
  {
    SequenceOfSave(store, saves);
  }

  lemma CommitKeepsHistory(cfg: Config, w: World, save: Save)
    requires HistoryOk(cfg, w) && |w.history| < MAX_SAVES
    requires Committed(cfg, w, save).Some? && SaveOk(cfg, save)
    ensures HistoryOk(cfg, Committed(cfg, w, save).value)
  {
    CommitStore(cfg, w, save);
    CommitKeepsSaves(cfg, w.history, save);
    CounterAfterSave(w.store, |w.history|, save.part, EncodeForCache(save.general).value,
                     RowText(cfg, save, General), RowText(cfg, save, Operation));
    SheetsAfterSave(w.store, w.history, save, EncodeForCache(save.general).value,
                    RowText(cfg, save, General), RowText(cfg, save, Operation));
  }

  lemma EnqueuedRow(store: Store, part: PartId, cached: bytes, general: Line, operation: Line, saves: nat,
                    q: QueueTable)
    requires CounterAt(store.counter, saves) && saves < MAX_SAVES
    ensures Enqueued(store, part, cached, general, operation).Queue(q) ==
            store.Queue(q)[KeyOf(saves, Offset(q)) := if q.General? then general else operation]
  {
    SequenceOfSave(store, saves);
  }

  lemma CommitKeepsQueue(cfg: Config, w: World, save: Save, q: QueueTable)
    requires QueueOk(cfg, w, q) && CounterAt(w.store.counter, |w.history|) && |w.history| < MAX_SAVES
    requires Committed(cfg, w, save).Some?
    ensures QueueOk(cfg, Committed(cfg, w, save).value, q)
  {
    CommitStore(cfg, w, save);
    EnqueuedRow(w.store, save.part, EncodeForCache(save.general).value,
                RowText(cfg, save, General), RowText(cfg, save, Operation), |w.history|, q);
    RowsSnoc(cfg, w.history, save, q);
    EnqueueKeeps(w.store.Queue(q), Rows(cfg, w.history, q), Offset(q), w.LaneOf(q), RowText(cfg, save, q));
  }

  lemma BatchIsTheRest(store: Store, q: QueueTable, rows: seq<Line>, removed: nat)
    requires QueueHolds(store.Queue(q), rows, Offset(q), removed)
    ensures QueueBatch(store, q).0 == KeyRange(removed, |rows|, Offset(q))
    ensures QueueBatch(store, q).1 == Unlines(rows[removed..])
  {
    SnapshotReadsTheRest(store.Queue(q), rows, Offset(q), removed, SortedKeys(store.Queue(q).Keys));
  }

  lemma SnapshotKeepsQueue(cfg: Config, w: World, q: QueueTable)
    requires QueueOk(cfg, w, q) && w.LaneOf(q).phase.Idle?
    ensures QueueOk(cfg, Snapshot(w, q), q)
  {
    var rows := Rows(cfg, w.history, q);
    BatchIsTheRest(w.store, q, rows, w.LaneOf(q).removed);
    var (keys, body) := QueueBatch(w.store, q);
    SnapshotKeeps(w.store.Queue(q), rows, Offset(q), w.LaneOf(q), keys, body);
  }

  lemma DrainedKeepsQueue(cfg: Config, w: World, q: QueueTable)
    requires QueueOk(cfg, w, q) && Drained(w, q).Some?
    ensures QueueOk(cfg, Drained(w, q).value, q)
  {
    RemovalKeeps(w.store.Queue(q), Rows(cfg, w.history, q), Offset(q), w.LaneOf(q));
  }

  lemma CrashKeepsQueue(cfg: Config, w: World, q: QueueTable)
    requires QueueOk(cfg, w, q)
    ensures QueueOk(cfg, Crashed(w), q)
  {
    GiveUpKeeps(w.store.Queue(q), Rows(cfg, w.history, q), Offset(q), w.LaneOf(q));
  }

  /** The other steps of a drainer change its own lane only. */
  lemma LaneStepKeepsQueue(cfg: Config, w: World, q: QueueTable, e: Event)
    requires QueueOk(cfg, w, q) && Apply(cfg, w, e).Some?
    requires (e.SendBatch? || e.LandBatch? || e.AcknowledgeBatch? || e.FailDrain?) && e.queue == q
    ensures QueueOk(cfg, Apply(cfg, w, e).value, q)
  {
    var queue, rows, lane := w.store.Queue(q), Rows(cfg, w.history, q), w.LaneOf(q);
    match e
    case SendBatch(_) => SendKeeps(queue, rows, Offset(q), lane);
    case LandBatch(_, a) => LandKeeps(queue, rows, Offset(q), lane, a);
    case AcknowledgeBatch(_) => AcknowledgeKeeps(queue, rows, Offset(q), lane);
    case FailDrain(_) => GiveUpKeeps(queue, rows, Offset(q), lane);
  }

  /** Only saves change the history and what the cache keeps of it. */
  lemma OtherStepsLeaveHistory(cfg: Config, w: World, e: Event)
    requires Apply(cfg, w, e).Some? && !e.Commit?
    ensures Apply(cfg, w, e).value.history == w.history
    ensures Apply(cfg, w, e).value.store.counter == w.store.counter
    ensures Apply(cfg, w, e).value.store.sheets == w.store.sheets
  {
    hide QueueBatch, NextSerial, DateKey, CheckEnqueuing, TakeSnapshot, Send, Land, Acknowledge, CommitRemoval, KeySet;
  }

  predicate ActsOn(e: Event, q: QueueTable) {
    match e
    case Commit(_, _, _, _) => true
    case Crash => true
    case Admit => false
    case Abandon => false
    case Create(_, _, _, _) => false
    case _ => e.queue == q
  }

  /** A step that does not act on a queue leaves its rows and its drainer alone. */
  lemma OtherStepsLeaveQueue(cfg: Config, w: World, e: Event, q: QueueTable)
    requires Apply(cfg, w, e).Some? && !ActsOn(e, q)
    ensures Apply(cfg, w, e).value.store.Queue(q) == w.store.Queue(q)
    ensures Apply(cfg, w, e).value.LaneOf(q) == w.LaneOf(q)
  {
    hide QueueBatch, NextSerial, DateKey, CheckEnqueuing, TakeSnapshot, Send, Land, Acknowledge, CommitRemoval, KeySet;
  }

  lemma StepKeepsQueue(cfg: Config, w: World, e: Event, q: QueueTable)
    requires QueueOk(cfg, w, q) && CounterAt(w.store.counter, |w.history|)
    requires Apply(cfg, w, e).Some? && |Apply(cfg, w, e).value.history| <= MAX_SAVES
    ensures QueueOk(cfg, Apply(cfg, w, e).value, q)
  {
    hide LaneInv, CounterAt, SaveOf, Committed;
    if e.Commit? {
      CommitEvent(cfg, w, e);
      CommitStore(cfg, w, SaveOf(cfg, e.ctx, e.values, e.machine, e.savedAt).value);
      CommitKeepsQueue(cfg, w, SaveOf(cfg, e.ctx, e.values, e.machine, e.savedAt).value, q);
    } else if e.Crash? {
      CrashKeepsQueue(cfg, w, q);
    } else if !ActsOn(e, q) {
      OtherStepsLeaveHistory(cfg, w, e);
      OtherStepsLeaveQueue(cfg, w, e, q);
    } else if e.SnapshotQueue? {
      SnapshotKeepsQueue(cfg, w, q);
    } else if e.RemoveBatch? {
      DrainedKeepsQueue(cfg, w, q);
    } else {
      LaneStepKeepsQueue(cfg, w, q, e);
    }
  }

  lemma StoreOfHistory(before: Store, after: Store, history: seq<Save>)
    requires before.counter == after.counter && before.sheets == after.sheets
    ensures CounterAt(before.counter, |history|) ==> CounterAt(after.counter, |history|)
    ensures SheetsOk(before, history) ==> SheetsOk(after, history)
  {
    hide LastSave, EncodeForCache;
  }

  lemma StepKeepsHistory(cfg: Config, w: World, e: Event)
    requires HistoryOk(cfg, w)
    requires Apply(cfg, w, e).Some? && |Apply(cfg, w, e).value.history| <= MAX_SAVES
    ensures HistoryOk(cfg, Apply(cfg, w, e).value)
  {
    hide Apply, SaveOf, Committed, SavesOk, CounterAt, SheetsOk;
    if e.Commit? {
      CommitEvent(cfg, w, e);
      var save := SaveOf(cfg, e.ctx, e.values, e.machine, e.savedAt).value;
      CommitStore(cfg, w, save);
      CommittedSaveOk(cfg, e.ctx, e.values, e.machine, e.savedAt);
      CommitKeepsHistory(cfg, w, save);
    } else {
      OtherStepsLeaveHistory(cfg, w, e);
      StoreOfHistory(w.store, Apply(cfg, w, e).value.store, w.history);
    }
  }

  lemma HistoryGrows(cfg: Config, w: World, e: Event)
    requires Apply(cfg, w, e).Some?
    ensures w.history <= Apply(cfg, w, e).value.history
  {
    hide Apply, SaveOf, Committed;
    if e.Commit? {
      CommitEvent(cfg, w, e);
      CommitStore(cfg, w, SaveOf(cfg, e.ctx, e.values, e.machine, e.savedAt).value);
    } else {
      OtherStepsLeaveHistory(cfg, w, e);
    }
  }

  /** The last step of a run. */
  lemma LastStep(cfg: Config, run: seq<Event>) returns (before: seq<Event>, w: World, e: Event)
    requires run != [] && Execute(cfg, run).Some?
    ensures before == run[..|run| - 1] && e == run[|run| - 1]
    ensures Execute(cfg, before) == Some(w) && Apply(cfg, w, e) == Execute(cfg, run)
    ensures |w.history| <= |Execute(cfg, run).value.history|
  {
    before, e := run[..|run| - 1], run[|run| - 1];
    w := Execute(cfg, before).value;
    HistoryGrows(cfg, w, e);
  }

  /** In every world a run can reach, as long as sequence numbers last. */
  lemma {:induction false} ReachedHistory(cfg: Config, run: seq<Event>)
    requires Execute(cfg, run).Some? && |Execute(cfg, run).value.history| <= MAX_SAVES
    ensures HistoryOk(cfg, Execute(cfg, run).value)
  {
    if run != [] {
      var before, w, e := LastStep(cfg, run);
      ReachedHistory(cfg, before);
      StepKeepsHistory(cfg, w, e);
    }
  }

  lemma {:induction false} ReachedQueue(cfg: Config, run: seq<Event>, q: QueueTable)
    requires Execute(cfg, run).Some? && |Execute(cfg, run).value.history| <= MAX_SAVES
    ensures QueueOk(cfg, Execute(cfg, run).value, q)
  {
    if run == [] {
      NewLane(Offset(q));
      assert Rows(cfg, [], q) == [];
    } else {
      var before, w, e := LastStep(cfg, run);
      ReachedHistory(cfg, before);
      ReachedQueue(cfg, before, q);
      StepKeepsQueue(cfg, w, e, q);
    }
  }
}
