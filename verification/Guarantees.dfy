/** What the gateway guarantees in every run. */
module Guarantees {
  import opened Wrappers
  import opened Bytes
  import opened Calendar
  import opened AsciiText
  import opened Variants
  import opened PartSheets
  import opened PartIdentifier
  import opened Cache
  import opened SaveRequest
  import opened Outbox
  import opened Gateway
  import Json

  // ---------------------------------------------------------------------------
  // Archiving
  // ---------------------------------------------------------------------------

  /** Nothing is lost: in every run, each row of each committed save is in its queue, under its
      own key, or in its archive table. */
  lemma NothingIsLostInAnyRun(cfg: Config, run: seq<Event>, q: QueueTable, save: nat)
    requires Execute(cfg, run).Some? && |Execute(cfg, run).value.history| <= MAX_SAVES
    requires save < |Execute(cfg, run).value.history|
    ensures
      var w := Execute(cfg, run).value;
      var row := RowText(cfg, w.history[save], q);
      || (KeyOf(save, Offset(q)) in w.store.Queue(q) && w.store.Queue(q)[KeyOf(save, Offset(q))] == row)
      || row in w.LaneOf(q).table
  {
    var w := Execute(cfg, run).value;
    ReachedQueue(cfg, run, q);
    NothingIsLost(w.store.Queue(q), Rows(cfg, w.history, q), Offset(q), w.LaneOf(q), save);
  }

  /** Ordered delivery: in every run, even when a timed-out insertion lands after a later one,
      the first copies of the archived rows are the rows of the first saves, in commit order. */
  lemma FirstDeliveriesAreInOrder(cfg: Config, run: seq<Event>, q: QueueTable)
    requires Execute(cfg, run).Some? && |Execute(cfg, run).value.history| <= MAX_SAVES
    ensures
      var w := Execute(cfg, run).value;
      && Archived(w.LaneOf(q)) <= |w.history| && |w.LaneOf(q).table| == |w.LaneOf(q).tags|
      && FirstRows(w.LaneOf(q).table, w.LaneOf(q).tags) == Rows(cfg, w.history, q)[..Archived(w.LaneOf(q))]
  {
    var w := Execute(cfg, run).value;
    ReachedQueue(cfg, run, q);
    FirstCopiesAreAPrefix(w.store.Queue(q), Rows(cfg, w.history, q), Offset(q), w.LaneOf(q));
  }

  /** Exact delivery: when every insertion that landed was followed by its removal, the archive
      table followed by the queue, read in key order, is the history itself. */
  lemma DeliveryIsExact(cfg: Config, run: seq<Event>, q: QueueTable)
    requires Execute(cfg, run).Some? && |Execute(cfg, run).value.history| <= MAX_SAVES
    requires AllLandingsRemoved(Execute(cfg, run).value.LaneOf(q))
    ensures
      var w := Execute(cfg, run).value;
      w.LaneOf(q).table + Lines(QueueBatch(w.store, q).1) == Rows(cfg, w.history, q)
  {
    var w := Execute(cfg, run).value;
    var rows, lane := Rows(cfg, w.history, q), w.LaneOf(q);
    ReachedQueue(cfg, run, q);
    TableThenQueueIsHistory(w.store.Queue(q), rows, Offset(q), lane);
    BatchIsTheRest(w.store, q, rows, lane.removed);
    LinesOfUnlines(rows[lane.removed..]);
  }

  /** In every run, each archived row is the row of the save its tag names. */
  lemma TagsNameRows(cfg: Config, run: seq<Event>, q: QueueTable)
    requires Execute(cfg, run).Some? && |Execute(cfg, run).value.history| <= MAX_SAVES
    ensures
      var w := Execute(cfg, run).value;
      var lane := w.LaneOf(q);
      && |lane.table| == |lane.tags|
      && forall j :: 0 <= j < |lane.tags| ==>
           lane.tags[j] < |w.history| && lane.table[j] == RowText(cfg, w.history[lane.tags[j]], q)
  {
    hide Execute, QueueHolds, PhaseOk, AttemptOk, RemovalsDisjoint, PrefixOk, CountsOk, RowText;
    ReachedQueue(cfg, run, q);
  }

  /** Duplicate bound: a row has one copy for each attempt that landed with it, so at most one
      more than the attempts that landed with it without their removal committing. */
  lemma DuplicatesAreBounded(cfg: Config, run: seq<Event>, q: QueueTable, save: nat)
    requires Execute(cfg, run).Some? && |Execute(cfg, run).value.history| <= MAX_SAVES
    ensures
      var lane := Execute(cfg, run).value.LaneOf(q);
      && Copies(lane.tags, save) == |LandedWith(lane.attempts, save)|
      && Copies(lane.tags, save) <= 1 + |UnremovedWith(lane.attempts, save)|
  {
    var w := Execute(cfg, run).value;
    ReachedQueue(cfg, run, q);
    CopiesAreLandings(w.store.Queue(q), Rows(cfg, w.history, q), Offset(q), w.LaneOf(q), save);
  }

  /** Batch framing: the body of every attempt, split at its newlines, is one row per key, in key
      order, each the row of the save that key belongs to. */
  lemma BatchesAreFramed(cfg: Config, run: seq<Event>, q: QueueTable, i: nat)
    requires Execute(cfg, run).Some? && |Execute(cfg, run).value.history| <= MAX_SAVES
    requires i < |Execute(cfg, run).value.LaneOf(q).attempts|
    ensures
      var w := Execute(cfg, run).value;
      var a := w.LaneOf(q).attempts[i];
      && a.lo <= a.hi <= |w.history|
      && Lines(a.body) == Rows(cfg, w.history, q)[a.lo..a.hi]
      && a.keys == KeyRange(a.lo, a.hi, Offset(q))
  {
    var w := Execute(cfg, run).value;
    ReachedQueue(cfg, run, q);
    BodiesFrameTheirRows(w.store.Queue(q), Rows(cfg, w.history, q), Offset(q), w.LaneOf(q), i);
  }

  /** After drains that failed, whatever the way, the next batch is the failed one followed by the
      rows saved since: a later attempt extends an earlier one unless a removal committed between
      their snapshots. */
  lemma RetriedBatchesExtend(cfg: Config, run: seq<Event>, q: QueueTable, i: nat, j: nat)
    requires Execute(cfg, run).Some? && |Execute(cfg, run).value.history| <= MAX_SAVES
    requires i < j < |Execute(cfg, run).value.LaneOf(q).attempts|
    requires forall k :: i <= k < j ==> !Execute(cfg, run).value.LaneOf(q).attempts[k].removed
    ensures
      var w := Execute(cfg, run).value;
      var a, b := w.LaneOf(q).attempts[i], w.LaneOf(q).attempts[j];
      && a.hi <= b.hi <= |w.history|
      && b.body == a.body + Unlines(Rows(cfg, w.history, q)[a.hi..b.hi])
      && a.keys <= b.keys
  {
    hide Execute, LaneInv;
    var w := Execute(cfg, run).value;
    ReachedQueue(cfg, run, q);
    RetriesExtend(w.store.Queue(q), Rows(cfg, w.history, q), Offset(q), w.LaneOf(q), i, j);
  }

  // ---------------------------------------------------------------------------
  // Sequence numbers
  // ---------------------------------------------------------------------------

  lemma NextIsSequenceAt(counter: Option<u64>, saves: nat)
    requires CounterAt(counter, saves)
    ensures NextSequence(counter) == SequenceAt(saves)
  {
    if saves > 0 {
      TwoMoreModulo(2 * (saves - 1));
      assert 2 * (saves - 1) + 2 == 2 * saves;
    }
  }

  lemma TwoMoreModulo(n: nat)
    ensures (n % U64 + 2) % U64 == (n + 2) % U64
  {
    var rest := n % U64;
    assert n == U64 * (n / U64) + rest;
    if rest + 2 < U64 {
      assert n + 2 == U64 * (n / U64) + (rest + 2);
    } else {
      assert n + 2 == U64 * (n / U64 + 1) + (rest + 2 - U64);
    }
  }

  /** In every run, whatever was drained and however often the process restarted: the counter is
      absent before the first save, then at the number of the last one; the next save takes the
      number of its rank. */
  lemma {:induction false} CounterFollowsHistory(cfg: Config, run: seq<Event>)
    requires Execute(cfg, run).Some?
    ensures CounterAt(Execute(cfg, run).value.store.counter, |Execute(cfg, run).value.history|)
    ensures NextSequence(Execute(cfg, run).value.store.counter) == SequenceAt(|Execute(cfg, run).value.history|)
  {
    hide CounterAt, NextSequence, SequenceAt, Apply;
    if run == [] {
      CounterStarts();
    } else {
      var before, w, e := LastStep(cfg, run);
      CounterFollowsHistory(cfg, before);
      CounterStep(cfg, w, e);
    }
    NextIsSequenceAt(Execute(cfg, run).value.store.counter, |Execute(cfg, run).value.history|);
  }

  /** Only a save moves the counter. */
  lemma CounterStep(cfg: Config, w: World, e: Event)
    requires Apply(cfg, w, e).Some? && CounterAt(w.store.counter, |w.history|)
    ensures CounterAt(Apply(cfg, w, e).value.store.counter, |Apply(cfg, w, e).value.history|)
  {
    hide CounterAt, NextSequence, SequenceAt, Apply, SaveOf, Committed;
    if e.Commit? {
      CommitEvent(cfg, w, e);
      CommitStore(cfg, w, SaveOf(cfg, e.ctx, e.values, e.machine, e.savedAt).value);
      NextIsSequenceAt(w.store.counter, |w.history|);
      CounterMoved(|w.history|);
    } else {
      OtherStepsLeaveHistory(cfg, w, e);
    }
  }

  lemma CounterStarts()
    ensures CounterAt(START.store.counter, 0)
  {
  }

  lemma CounterMoved(saves: nat)
    ensures CounterAt(Some(SequenceAt(saves)), saves + 1)
  {
  }

  /** Keys are never reused, exactly as long as no more than 2^63 saves commit. */
  lemma KeysAreDistinctIff(saves: nat)
    ensures (forall i, j :: 0 <= i < j < saves ==> SequenceAt(i) != SequenceAt(j)) <==> saves <= MAX_SAVES
  {
    if saves > MAX_SAVES {
      assert SequenceAt(0) == SequenceAt(MAX_SAVES);
    }
  }

  /** The queue holds a row under a key only when it is the row of the save that owns the key,
      and both rows of a save name the same instant, machine and part. */
  lemma KeysBelongToTheirSaves(cfg: Config, run: seq<Event>, q: QueueTable, key: nat)
    requires Execute(cfg, run).Some? && |Execute(cfg, run).value.history| <= MAX_SAVES
    requires key in Execute(cfg, run).value.store.Queue(q)
    ensures
      var w := Execute(cfg, run).value;
      && key / 2 < |w.history| && key % 2 == Offset(q)
      && w.store.Queue(q)[key] == RowText(cfg, w.history[key / 2], q)
  {
    hide Execute, PhaseOk, AttemptOk, RemovalsDisjoint, ArchiveOk, PrefixOk, CountsOk, RowText;
    ReachedQueue(cfg, run, q);
    assert key == KeyOf(key / 2, Offset(q));
  }

  /** The row of a save, read back, is about that save: its instant, machine and part, and the
      variables of its general sheet in the general queue, of its operation sheet in the other. */
  lemma RowsTellTheirSave(cfg: Config, save: Save, q: QueueTable)
    requires RowOf(cfg.floats, save, q).Ok?
    ensures ReadRow(RowText(cfg, save, q)) ==
            Some(Row(TimestampText(save.savedAt), save.machine, save.part,
                     Entries(cfg.floats, if q.General? then save.general else save.operation)))
  {
    hide EncodeForArchive, ReadRow;
    RowRoundTrip(cfg.floats, save.savedAt, save.machine, save.part, save.Sheet(q));
  }

  /** The data of a row is what was read from some nodes: their names, in order, each with the
      meaning of its value. */
  ghost predicate TellsValues(fmt: Json.FloatFormat, data: seq<(bytes, Json.JsonValue)>, nodes: seq<Node>,
                              values: seq<DataValue>)
  {
    && |data| == |nodes| == |values|
    && forall i :: 0 <= i < |nodes| ==>
         && values[i].isGood && values[i].value.Some?
         && data[i] == (nodes[i].name, Json.Meaning(fmt, values[i].value.value))
  }

  /** A row is about what a request has read: the instant and the machine of the request, the part
      that the part identifier node holds, and the nodes of its sheet with their values, those of
      the general sheet coming first. */
  ghost predicate TellsCommit(cfg: Config, row: Row, e: Event, q: QueueTable)
    requires e.Commit?
  {
    var general := |e.ctx.general|;
    && row.savedAt == TimestampText(e.savedAt) && row.machine == e.machine
    && general <= |e.values| && e.ctx.partIdIndex < general
    && e.ctx.general[e.ctx.partIdIndex].id == cfg.partIdNid
    && (match e.values[e.ctx.partIdIndex].value
        case Some(UaString(Some(part))) => part == row.part
        case _ => false)
    && if q.General? then TellsValues(cfg.floats, row.data, e.ctx.general, e.values[..general])
       else TellsValues(cfg.floats, row.data, e.ctx.operation, e.values[general..])
  }

  /** From the machine to the queues: in every run, a save that commits queues a row of the general
      nodes under an even key, and a row of the operation nodes under the next one, with the values
      that were read. */
  lemma RowsTellWhatWasRead(cfg: Config, run: seq<Event>, e: Event, q: QueueTable)
    requires Execute(cfg, run).Some? && |Execute(cfg, run).value.history| < MAX_SAVES
    requires e.Commit? && Apply(cfg, Execute(cfg, run).value, e).Some?
    ensures
      var queue := Apply(cfg, Execute(cfg, run).value, e).value.store.Queue(q);
      var key := 2 * |Execute(cfg, run).value.history| + if q.General? then 0 else 1;
      && key in queue && ReadRow(queue[key]).Some?
      && TellsCommit(cfg, ReadRow(queue[key]).value, e, q)
  {
    hide Execute, Apply, SaveOf, ReadRow, TellsCommit, HistoryOk, RowText, TimestampText, Entries;
    var w := Execute(cfg, run).value;
    ReachedHistory(cfg, run);
    CommitEvent(cfg, w, e);
    var save := SaveOf(cfg, e.ctx, e.values, e.machine, e.savedAt).value;
    RowIsQueued(cfg, w, e, save, q);
    RowsTellTheirSave(cfg, save, q);
    RowTellsCommit(cfg, e, save, q);
  }

  lemma RowTellsCommit(cfg: Config, e: Event, save: Save, q: QueueTable)
    requires e.Commit? && SaveOf(cfg, e.ctx, e.values, e.machine, e.savedAt) == Some(save)
    ensures
      var sheet := if q.General? then save.general else save.operation;
      TellsCommit(cfg, Row(TimestampText(save.savedAt), save.machine, save.part, Entries(cfg.floats, sheet)), e, q)
  {
    hide SaveOf, TimestampText, Entries, TellsValues, IsSlicing;
    CommitIsSliced(cfg, e, save);
    SheetsTellValues(cfg.floats, e.ctx, e.values, save);
    PartWasRead(e.ctx, e.values, save);
  }

  lemma RowIsQueued(cfg: Config, w: World, e: Event, save: Save, q: QueueTable)
    requires HistoryOk(cfg, w) && |w.history| < MAX_SAVES
    requires e.Commit? && SaveOf(cfg, e.ctx, e.values, e.machine, e.savedAt) == Some(save)
    requires Apply(cfg, w, e).Some? && Apply(cfg, w, e) == Committed(cfg, w, save)
    ensures
      var queue := Apply(cfg, w, e).value.store.Queue(q);
      && KeyOf(|w.history|, Offset(q)) in queue && queue[KeyOf(|w.history|, Offset(q))] == RowText(cfg, save, q)
      && RowOf(cfg.floats, save, q).Ok?
  {
    hide Apply, SaveOf, Committed, RowOf, Enqueued, RowText, SheetsOk, SavesOk, EncodeForCache;
    CommitStore(cfg, w, save);
    EnqueuedRow(w.store, save.part, EncodeForCache(save.general).value, RowText(cfg, save, General),
                RowText(cfg, save, Operation), |w.history|, q);
  }

  lemma CommitIsSliced(cfg: Config, e: Event, save: Save)
    requires e.Commit? && SaveOf(cfg, e.ctx, e.values, e.machine, e.savedAt) == Some(save)
    ensures e.ctx.partIdIndex < |e.ctx.general| && e.ctx.general[e.ctx.partIdIndex].id == cfg.partIdNid
    ensures save.machine == e.machine && save.savedAt == e.savedAt
    ensures IsSlicing(e.ctx, e.values, save.part, save.general, save.operation)
  {
    hide SaveOf, SliceSheets, IsSlicing;
    SaveIsSliced(cfg, e.ctx, e.values, e.machine, e.savedAt);
    SlicingIff(e.ctx, e.values, save.part, save.general, save.operation);
  }

  lemma SheetsTellValues(fmt: Json.FloatFormat, ctx: SheetsContext, values: seq<DataValue>, save: Save)
    requires IsSlicing(ctx, values, save.part, save.general, save.operation)
    ensures |ctx.general| <= |values|
    ensures TellsValues(fmt, Entries(fmt, save.general), ctx.general, values[..|ctx.general|])
    ensures TellsValues(fmt, Entries(fmt, save.operation), ctx.operation, values[|ctx.general|..])
  {
    hide Entries, Json.Meaning, ValidatePartIdentifier, NamesPart;
    EntriesAreItems(fmt, save.general);
    EntriesAreItems(fmt, save.operation);
  }

  lemma PartWasRead(ctx: SheetsContext, values: seq<DataValue>, save: Save)
    requires IsSlicing(ctx, values, save.part, save.general, save.operation)
    ensures ctx.partIdIndex < |ctx.general| <= |values|
    ensures values[ctx.partIdIndex].value == Some(UaString(Some(save.part)))
  {
    hide ValidatePartIdentifier;
    assert values[..|ctx.general|][ctx.partIdIndex] == values[ctx.partIdIndex];
  }

  /** A removal takes the rows of its snapshot out of the queue and nothing else: every row saved
      after the snapshot was read is still there. */
  lemma RemovalSparesLaterSaves(cfg: Config, run: seq<Event>, q: QueueTable, save: nat)
    requires Execute(cfg, run).Some? && |Execute(cfg, run).value.history| <= MAX_SAVES
    requires Drained(Execute(cfg, run).value, q).Some?
    requires save < |Execute(cfg, run).value.history|
    ensures
      var w := Execute(cfg, run).value;
      var queue := Drained(w, q).value.store.Queue(q);
      var key := KeyOf(save, Offset(q));
      var a := w.LaneOf(q).attempts[w.LaneOf(q).phase.attempt];
      && (save >= a.hi ==> key in queue && queue[key] == RowText(cfg, w.history[save], q))
      && (save < a.hi ==> key !in queue)
      && (a.lo <= save ==> key in w.store.Queue(q))
  {
    var w := Execute(cfg, run).value;
    ReachedQueue(cfg, run, q);
    DrainedKeepsQueue(cfg, w, q);
  }

  // ---------------------------------------------------------------------------
  // The cache
  // ---------------------------------------------------------------------------

  lemma LookupIsLastSave(cfg: Config, w: World, part: PartId)
    requires HistoryOk(cfg, w)
    ensures GetGeneralPartSheet(w.store, part) ==
            if w.history == [] then Err(TableDoesNotExist)
            else
              match LastSave(w.history, part)
              case None => Ok(None)
              case Some(save) => Ok(Some(CachedItems(save.general)))
  {
    hide EncodeForCache, DecodeCached;
    var last := LastSave(w.history, part);
    if last.Some? {
      var i := LastSaveIsSaved(w.history, part);
      assert SaveOk(cfg, w.history[i]);
      CacheRoundTrip(last.value.general, []);
      assert w.store.sheets.value[part] + [] == w.store.sheets.value[part];
    }
  }

  /** In every run, the lookup of a part gives the identifiers and values of its last committed
      save, whatever was drained, saved or restarted since; it finds nothing for a part never
      saved, and fails when nothing was ever saved. */
  lemma CacheAgreesWithHistory(cfg: Config, run: seq<Event>, part: PartId)
    requires Execute(cfg, run).Some? && |Execute(cfg, run).value.history| <= MAX_SAVES
    ensures
      var w := Execute(cfg, run).value;
      GetGeneralPartSheet(w.store, part) ==
      if w.history == [] then Err(TableDoesNotExist)
      else
        match LastSave(w.history, part)
        case None => Ok(None)
        case Some(save) => Ok(Some(CachedItems(save.general)))
  {
    hide Execute, HistoryOk, GetGeneralPartSheet, LastSave;
    ReachedHistory(cfg, run);
    LookupIsLastSave(cfg, Execute(cfg, run).value, part);
  }

  /** The general sheet found under a part names that part at the part identifier node. */
  lemma LastSaveNamesPart(cfg: Config, run: seq<Event>, part: PartId)
    requires Execute(cfg, run).Some? && |Execute(cfg, run).value.history| <= MAX_SAVES
    requires LastSave(Execute(cfg, run).value.history, part).Some?
    ensures LastSave(Execute(cfg, run).value.history, part).value.part == part
    ensures NamesItsPart(cfg, LastSave(Execute(cfg, run).value.history, part).value)
  {
    hide Execute, NamesItsPart, CounterAt, SheetsOk;
    ReachedHistory(cfg, run);
    var i := LastSaveIsSaved(Execute(cfg, run).value.history, part);
    assert SaveOk(cfg, Execute(cfg, run).value.history[i]);
  }

  lemma NothingSavedMeansNoSave(part: PartId)
    ensures LastSave([], part).None?
  {
  }

  lemma {:induction false} LastSaveIsSaved(history: seq<Save>, part: PartId) returns (i: nat)
    requires LastSave(history, part).Some?
    ensures i < |history| && history[i] == LastSave(history, part).value && history[i].part == part
    ensures forall j :: i < j < |history| ==> history[j].part != part
  {
    var n := |history| - 1;
    if history[n].part == part {
      i := n;
    } else {
      i := LastSaveIsSaved(history[..n], part);
      assert forall j :: i < j < n ==> history[..n][j] == history[j];
    }
  }

  // ---------------------------------------------------------------------------
  // The backlog
  // ---------------------------------------------------------------------------

  lemma RemovalShrinks(table: map<nat, Line>, keys: set<nat>)
    ensures |table - keys| <= |table|
  {
    assert (table - keys).Keys == table.Keys - keys;
    assert table.Keys == (table.Keys - keys) + (table.Keys * keys);
  }

  lemma InsertionGrowsByOne(table: map<nat, Line>, key: nat, row: Line)
    ensures |table[key := row]| <= |table| + 1
  {
    assert table[key := row].Keys == table.Keys + {key};
  }

  /** At most a number of saves are admitted and not committed, at any point of a run. */
  ghost predicate AdmissionsBounded(cfg: Config, start: World, run: seq<Event>, most: nat) {
    forall k :: 0 <= k <= |run| && ExecuteFrom(cfg, start, run[..k]).Some? ==>
      ExecuteFrom(cfg, start, run[..k]).value.admitted <= most
  }

  function Queued(w: World): nat {
    |w.store.Queue(General)| + |w.store.Queue(Operation)|
  }

  /** Rows queued, and the rows that admitted saves may still add. */
  function Committable(w: World): nat {
    Queued(w) + 2 * w.admitted
  }

  lemma BacklogStep(cfg: Config, w: World, e: Event)
    requires Apply(cfg, w, e).Some?
    ensures
      var next := Apply(cfg, w, e).value;
      || (Committable(next) <= Committable(w) && next.admitted <= w.admitted)
      || (e.Admit? && Queued(next) < cfg.threshold && next.admitted == w.admitted + 1)
  {
    hide SaveOf, Committed, QueueBatch, TakeSnapshot, Send, Land, Acknowledge, NextSerial, NextSequence, RowText,
         EncodeForCache, RowOf, DateKey;
    if e.Commit? {
      CommitEvent(cfg, w, e);
      var save := SaveOf(cfg, e.ctx, e.values, e.machine, e.savedAt).value;
      CommitStore(cfg, w, save);
      var sequence := NextSequence(w.store.counter);
      InsertionGrowsByOne(w.store.Queue(General), sequence, RowText(cfg, save, General));
      InsertionGrowsByOne(w.store.Queue(Operation), (sequence + 1) % U64, RowText(cfg, save, Operation));
    } else if e.RemoveBatch? {
      RemovalShrinks(w.store.Queue(e.queue), KeySet(w.LaneOf(e.queue).attempts[w.LaneOf(e.queue).phase.attempt].keys));
    }
  }

  function Max(a: nat, b: nat): nat {
    if a <= b then b else a
  }

  /** Backlog bound: although the check and the save are separate steps, when at most `most`
      saves are ever admitted together, the queues hold no more rows than threshold - 1 + 2 * most
      or than those there may be at the start, whichever is more; the start is any world, such as
      one left by a process with another threshold. With a threshold of 0 nothing is added but by
      the saves admitted at the start. */
  lemma {:induction false} BacklogStaysBounded(cfg: Config, start: World, run: seq<Event>, most: nat)
    requires ExecuteFrom(cfg, start, run).Some? && AdmissionsBounded(cfg, start, run, most)
    ensures Committable(ExecuteFrom(cfg, start, run).value) <=
            Max(Committable(start), if cfg.threshold == 0 then 0 else cfg.threshold - 1 + 2 * most)
    ensures cfg.threshold == 0 ==> ExecuteFrom(cfg, start, run).value.admitted <= start.admitted
  {
    hide Apply;
    if run != [] {
      var before := run[..|run| - 1];
      assert forall k :: 0 <= k <= |before| ==> before[..k] == run[..k];
      BacklogStaysBounded(cfg, start, before, most);
      BacklogStep(cfg, ExecuteFrom(cfg, start, before).value, run[|run| - 1]);
      assert run[..|run|] == run;
    }
  }

  /** From a fresh cache the bound is threshold - 1 + 2 * most, and with a threshold of 0 nothing
      is ever admitted. */
  lemma BacklogIsBounded(cfg: Config, run: seq<Event>, most: nat)
    requires Execute(cfg, run).Some? && AdmissionsBounded(cfg, START, run, most)
    ensures cfg.threshold > 0 ==> Queued(Execute(cfg, run).value) <= cfg.threshold - 1 + 2 * most
    ensures cfg.threshold == 0 ==> Queued(Execute(cfg, run).value) == 0 && Execute(cfg, run).value.admitted == 0
  {
    hide ExecuteFrom;
    BacklogStaysBounded(cfg, START, run, most);
  }

  // ---------------------------------------------------------------------------
  // Part identifiers
  // ---------------------------------------------------------------------------

  /** How many creations took a serial number on a day. */
  function CreationsOn(creations: seq<Creation>, today: Date): nat {
    if creations == [] then 0
    else
      var n := |creations| - 1;
      CreationsOn(creations[..n], today) + if creations[n].today == today then 1 else 0
  }

  /** The rank of a creation among those of its day, from 1. */
  function RankOnDay(creations: seq<Creation>, j: nat): nat
    requires j < |creations|
  {
    1 + CreationsOn(creations[..j], creations[j].today)
  }

  lemma CreationsSnoc(creations: seq<Creation>, c: Creation, today: Date)
    ensures CreationsOn(creations + [c], today) == CreationsOn(creations, today) + if c.today == today then 1 else 0
  {
    assert (creations + [c])[..|creations|] == creations;
  }

  /** Creations of a day have increasing ranks, the last of which is their number. */
  lemma {:induction false} RanksIncrease(creations: seq<Creation>, i: nat)
    requires i < |creations|
    ensures RankOnDay(creations, i) <= CreationsOn(creations, creations[i].today)
    ensures forall j :: i < j < |creations| && creations[j].today == creations[i].today ==>
              RankOnDay(creations, i) < RankOnDay(creations, j)
  {
    var n := |creations| - 1;
    if i < n {
      RanksIncrease(creations[..n], i);
      assert creations[..n][..i] == creations[..i];
      forall j | i < j < n ensures creations[..n][j] == creations[j] && creations[..n][..j] == creations[..j] {
      }
    }
  }

  /** Every day counts its creations modulo 2^32. */
  ghost predicate CountersOk(serials: map<bytes, u32>, creations: seq<Creation>) {
    forall today: Date ::
      && (DateKey(today) in serials <==> CreationsOn(creations, today) > 0)
      && (DateKey(today) in serials ==> serials[DateKey(today)] == CreationsOn(creations, today) % U32)
  }

  ghost predicate SerialsOk(w: World) {
    && CountersOk(w.store.serials, w.creations)
    && forall j :: 0 <= j < |w.creations| ==> w.creations[j].serial == RankOnDay(w.creations, j) % U32
  }

  lemma NextSerialIsNextRank(store: Store, creations: seq<Creation>, today: Date)
    requires CountersOk(store.serials, creations)
    ensures NextSerial(store, today) == (CreationsOn(creations, today) + 1) % U32
  {
    hide DateKey, CreationsOn;
    OneMoreModulo(CreationsOn(creations, today));
    assert DateKey(today) in store.serials <==> CreationsOn(creations, today) > 0;
  }

  lemma OneMoreModulo(n: nat)
    ensures (n % U32 + 1) % U32 == (n + 1) % U32
  {
  }

  lemma CreateKeepsCounters(w: World, c: Creation)
    requires CountersOk(w.store.serials, w.creations)
    ensures CountersOk(SerialTaken(w.store, c.today).serials, w.creations + [c])
  {
    hide DateKey, NextSerial, CreationsOn;
    NextSerialIsNextRank(w.store, w.creations, c.today);
    forall today: Date
      ensures CreationsOn(w.creations + [c], today) ==
              CreationsOn(w.creations, today) + if c.today == today then 1 else 0
      ensures DateKey(today) == DateKey(c.today) <==> today == c.today
    {
      CreationsSnoc(w.creations, c, today);
      DateKeyIsInjective(today, c.today);
    }
  }

  lemma CreateKeepsSerials(w: World, reference: Utf8, batch: Code2, line: Code2, today: Date)
    requires SerialsOk(w)
    ensures SerialsOk(Created(w, reference, batch, line, today))
  {
    hide CountersOk, NextSerial, SerialTaken, CreationsOn;
    var c := Creation(reference, batch, line, today, NextSerial(w.store, today));
    CreateKeepsCounters(w, c);
    NextSerialIsNextRank(w.store, w.creations, today);
    var creations := w.creations + [c];
    assert creations[..|w.creations|] == w.creations;
    forall j | 0 <= j < |w.creations| ensures RankOnDay(creations, j) == RankOnDay(w.creations, j) {
      assert creations[..j] == w.creations[..j];
    }
  }

  lemma OtherStepsLeaveSerials(cfg: Config, w: World, e: Event)
    requires Apply(cfg, w, e).Some? && !e.Create?
    ensures Apply(cfg, w, e).value.store.serials == w.store.serials
    ensures Apply(cfg, w, e).value.creations == w.creations
  {
    hide SaveOf, Committed, QueueBatch, TakeSnapshot, Send, Land, Acknowledge, CommitRemoval, KeySet, CheckEnqueuing;
    if e.Commit? {
      CommitEvent(cfg, w, e);
      CommitStore(cfg, w, SaveOf(cfg, e.ctx, e.values, e.machine, e.savedAt).value);
    }
  }

  /** In every run, each creation takes for serial its rank among the creations of its day, modulo
      2^32, whatever days the clock has been at in between. */
  lemma {:induction false} ReachedSerials(cfg: Config, run: seq<Event>)
    requires Execute(cfg, run).Some?
    ensures SerialsOk(Execute(cfg, run).value)
  {
    hide SerialsOk, Apply;
    if run == [] {
      NoSerialsYet();
    } else {
      var before, w, e := LastStep(cfg, run);
      ReachedSerials(cfg, before);
      if e.Create? {
        CreateEvent(cfg, w, e);
        CreateKeepsSerials(w, e.reference, e.batch, e.line, e.today);
      } else {
        OtherStepsLeaveSerials(cfg, w, e);
        SerialsAreAboutCounters(w, Execute(cfg, run).value);
      }
    }
  }

  lemma NoSerialsYet()
    ensures SerialsOk(START)
  {
  }

  lemma CreateEvent(cfg: Config, w: World, e: Event)
    requires e.Create?
    ensures Apply(cfg, w, e) == Some(Created(w, e.reference, e.batch, e.line, e.today))
  {
  }

  /** Creations are only ever added. */
  lemma {:induction false} CreationsGrow(cfg: Config, run: seq<Event>, more: seq<Event>)
    requires Execute(cfg, run + more).Some?
    ensures Execute(cfg, run).Some? && Execute(cfg, run).value.creations <= Execute(cfg, run + more).value.creations
  {
    hide Apply;
    if more == [] {
      assert run + more == run;
    } else {
      var n := |more| - 1;
      assert (run + more)[..|run + more| - 1] == run + more[..n];
      CreationsGrow(cfg, run, more[..n]);
      var w, e := Execute(cfg, run + more[..n]).value, more[n];
      if e.Create? {
        CreateEvent(cfg, w, e);
      } else {
        OtherStepsLeaveSerials(cfg, w, e);
      }
    }
  }

  lemma SerialsAreAboutCounters(w: World, next: World)
    requires SerialsOk(w) && next.store.serials == w.store.serials && next.creations == w.creations
    ensures SerialsOk(next)
  {
  }

  /** Two creations of a day take the same serial exactly when a multiple of 2^32 creations
      separates them. */
  lemma SerialsRepeatIff(cfg: Config, run: seq<Event>, i: nat, j: nat)
    requires Execute(cfg, run).Some? && i < j < |Execute(cfg, run).value.creations|
    requires Execute(cfg, run).value.creations[i].today == Execute(cfg, run).value.creations[j].today
    ensures
      var creations := Execute(cfg, run).value.creations;
      && RankOnDay(creations, i) < RankOnDay(creations, j)
      && (creations[i].serial == creations[j].serial <==>
         (RankOnDay(creations, j) - RankOnDay(creations, i)) % U32 == 0)
  {
    hide Execute, CreationsOn;
    var creations := Execute(cfg, run).value.creations;
    ReachedSerials(cfg, run);
    RanksIncrease(creations, i);
    SameRemainder(RankOnDay(creations, i), RankOnDay(creations, j));
  }

  lemma SameRemainder(a: nat, b: nat)
    requires a <= b
    ensures a % U32 == b % U32 <==> (b - a) % U32 == 0
  {
    var d := b - a;
    if a % U32 == b % U32 {
      assert d == U32 * (b / U32 - a / U32);
    }
    if d % U32 == 0 {
      assert b == U32 * (a / U32 + d / U32) + a % U32;
    }
  }

  /** Two identifiers created on dates less than 100 years apart are equal exactly when everything
      else is, the day included, and a multiple of 2^32 creations of that day separates them. */
  lemma IdentifiersCollideIff(cfg: Config, run: seq<Event>, i: nat, j: nat)
    requires Execute(cfg, run).Some? && i < j < |Execute(cfg, run).value.creations|
    requires
      var creations := Execute(cfg, run).value.creations;
      && creations[i].Identifier(cfg.unicode).Ok? && creations[j].Identifier(cfg.unicode).Ok?
      && -100 < creations[i].today.year - creations[j].today.year < 100
    ensures
      var creations := Execute(cfg, run).value.creations;
      var a, b := creations[i], creations[j];
      a.Identifier(cfg.unicode) == b.Identifier(cfg.unicode) <==>
      && ReferenceText(cfg.unicode, a.reference) == ReferenceText(cfg.unicode, b.reference)
      && a.batch == b.batch && a.line == b.line && a.today == b.today
      && (RankOnDay(creations, j) - RankOnDay(creations, i)) % U32 == 0
  {
    hide Execute, CreatePartIdentifier, ReferenceText, CreationsOn;
    var a, b := Execute(cfg, run).value.creations[i], Execute(cfg, run).value.creations[j];
    SameIdentifierIff(cfg.unicode, a, b);
    if a.today.year % 100 == b.today.year % 100 && OrdinalDay(a.today) == OrdinalDay(b.today) {
      SameCentury(a.today.year, b.today.year);
      OrdinalDayIsInjective(a.today, b.today);
    }
    if a.today == b.today {
      SerialsRepeatIff(cfg, run, i, j);
    }
  }

  /** Unique identifiers: over any run, with clocks that may go backwards, restarts, and attempts
      that burn serials, two creations on dates less than 100 years apart never give the same
      identifier, as long as no day sees more than 2^32 creations. */
  lemma IdentifiersAreUnique(cfg: Config, run: seq<Event>, i: nat, j: nat)
    requires Execute(cfg, run).Some? && i < j < |Execute(cfg, run).value.creations|
    requires
      var creations := Execute(cfg, run).value.creations;
      && creations[i].Identifier(cfg.unicode).Ok? && creations[j].Identifier(cfg.unicode).Ok?
      && -100 < creations[i].today.year - creations[j].today.year < 100
      && CreationsOn(creations, creations[j].today) <= U32
    ensures
      var creations := Execute(cfg, run).value.creations;
      creations[i].Identifier(cfg.unicode) != creations[j].Identifier(cfg.unicode)
  {
    hide Execute, CreatePartIdentifier, ReferenceText, CreationsOn;
    var creations := Execute(cfg, run).value.creations;
    IdentifiersCollideIff(cfg, run, i, j);
    if creations[i].today == creations[j].today {
      RanksIncrease(creations, i);
      RanksIncrease(creations, j);
      SmallDifference(RankOnDay(creations, j) - RankOnDay(creations, i));
    }
  }

  lemma SmallDifference(d: nat)
    requires 0 < d < U32
    ensures d % U32 != 0
  {
  }

  lemma SameCentury(a: nat, b: nat)
    requires a % 100 == b % 100 && -100 < a - b < 100
    ensures a == b
  {
  }

  /** The reference `1-498GR13`. */
  const SAMPLE: Utf8 := [0x31, 0x2D, 0x34, 0x39, 0x38, 0x47, 0x52, 0x31, 0x33]

  const CODE: Code2 := [0x41, 0x41]
  const FIRST_DAY: Date := CivilDate(2026, 1, 1)
  const CENTURY_LATER: Date := CivilDate(2126, 1, 1)

  lemma SameInputsCollide(unicode: UnicodeReader, a: Creation, b: Creation)
    requires IsAscii(a.reference) && (exists m :: IsSplit(a.reference, m)) && a.serial <= 99999
    requires b == a.(today := b.today)
    requires a.today.year % 100 == b.today.year % 100 && OrdinalDay(a.today) == OrdinalDay(b.today)
    ensures a.Identifier(unicode).Ok? && a.Identifier(unicode) == b.Identifier(unicode)
  {
    hide CreatePartIdentifier, ReferenceText, IsSplit, ValidUtf8, OrdinalDay;
    CreationSucceedsIff(unicode, a);
    CreationSucceedsIff(unicode, b);
    SameIdentifierIff(unicode, a, b);
  }

  /** The hundred years matter: two creations a century apart, the first of their days, with the
      same inputs, both succeed and give the same identifier. */
  lemma CenturiesCollide(unicode: UnicodeReader, a: Creation, b: Creation)
    requires a == Creation(SAMPLE, CODE, CODE, FIRST_DAY, 1) && b == Creation(SAMPLE, CODE, CODE, CENTURY_LATER, 1)
    ensures a.Identifier(unicode).Ok? && a.Identifier(unicode) == b.Identifier(unicode)
  {
    hide CreatePartIdentifier, ReferenceText, IsSplit, ValidUtf8, SequenceLength, OrdinalDay;
    SampleMatches();
    FirstDays();
    SameInputsCollide(unicode, a, b);
  }

  lemma CreateSnoc(cfg: Config, run: seq<Event>, w: World, e: Event)
    requires Execute(cfg, run) == Some(w) && e.Create?
    ensures Execute(cfg, run + [e]) == Some(Created(w, e.reference, e.batch, e.line, e.today))
  {
    StepForward(cfg, run, w, e);
  }

  /** A run from a fresh cache makes these two creations. */
  lemma CenturiesCollideInARun(cfg: Config) returns (run: seq<Event>, w: World)
    ensures Execute(cfg, run) == Some(w)
    ensures |w.creations| == 2 && w.creations[0].today != w.creations[1].today
    ensures w.creations[0].Identifier(cfg.unicode).Ok?
    ensures w.creations[0].Identifier(cfg.unicode) == w.creations[1].Identifier(cfg.unicode)
  {
    hide Execute, DateKey, CreatePartIdentifier;
    ExecuteNothing(cfg);
    CreateSnoc(cfg, [], START, Create(SAMPLE, CODE, CODE, FIRST_DAY));
    var once := Created(START, SAMPLE, CODE, CODE, FIRST_DAY);
    run := [] + [Create(SAMPLE, CODE, CODE, FIRST_DAY)];
    CreateSnoc(cfg, run, once, Create(SAMPLE, CODE, CODE, CENTURY_LATER));
    run := run + [Create(SAMPLE, CODE, CODE, CENTURY_LATER)];
    w := Created(once, SAMPLE, CODE, CODE, CENTURY_LATER);
    DateKeyIsInjective(FIRST_DAY, CENTURY_LATER);
    assert once.creations == [Creation(SAMPLE, CODE, CODE, FIRST_DAY, 1)];
    assert w.creations == once.creations + [Creation(SAMPLE, CODE, CODE, CENTURY_LATER, 1)];
    CenturiesCollide(cfg.unicode, w.creations[0], w.creations[1]);
  }

  lemma ExecuteNothing(cfg: Config)
    ensures Execute(cfg, []) == Some(START)
  {
  }

  lemma FirstDays()
    ensures OrdinalDay(FIRST_DAY) == 1 && OrdinalDay(CENTURY_LATER) == 1
  {
  }

  lemma SampleMatches()
    ensures IsAscii(SAMPLE) && exists m :: IsSplit(SAMPLE, m)
  {
    hide ValidUtf8, SequenceLength;
    var m := Split([], PartReference([0x31], [0x34, 0x39, 0x38], [0x31, 0x33]), [0x47, 0x52], []);
    assert SAMPLE[0..] == [0x31] + ([DASH] + ([0x34, 0x39, 0x38] + ([0x47, 0x52] + ([0x31, 0x33] + []))));
    assert IsSplit(SAMPLE, m);
  }
}
