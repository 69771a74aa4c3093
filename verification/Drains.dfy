/** Drains as steps of a lane, and what each has done when it is over. */
module Drains {
  import opened Wrappers
  import opened Bytes
  import opened Cache
  import opened Outbox
  import opened Gateway

  datatype DrainError = GetBatch | Insert | RemoveQueued

  /** What happens to a drain: it cannot read the queue; its insertion fails, or is still pending
      when it gives up; its insertion lands but the acknowledgement is lost; the removal fails;
      or all goes well. */
  datatype Fate = QueueUnreadable | Unsent | AcknowledgementLost | RemovalFails | Completes

  predicate Lands(fate: Fate) {
    fate.AcknowledgementLost? || fate.RemovalFails? || fate.Completes?
  }

  /** Where a drain is, between two points where it waits. */
  datatype Progress =
    | NotStarted
    | HasBatch(keys: seq<nat>, body: bytes)
    | Inserted(keys: seq<nat>)
    | Finished(result: Result<(), DrainError>)

  function Remaining(p: Progress): nat {
    match p
    case NotStarted => 3
    case HasBatch(_, _) => 2
    case Inserted(_) => 1
    case Finished(_) => 0
  }

  function OtherQueue(q: QueueTable): QueueTable {
    if q.General? then Operation else General
  }

  // ---------------------------------------------------------------------------
  // Drains as steps of a lane
  // ---------------------------------------------------------------------------

  /** The bodies that may still land, by attempt. */
  function InFlight(attempts: seq<Attempt>): (bodies: seq<Option<bytes>>)
    ensures |bodies| == |attempts|
    ensures forall i :: 0 <= i < |attempts| ==>
              bodies[i] == if attempts[i].inFlight then Some(attempts[i].body) else None
  {
    seq(|attempts|, i requires 0 <= i < |attempts| =>
      if attempts[i].inFlight then Some(attempts[i].body) else None)
  }

  ghost predicate IsAt(lane: Lane, keys: seq<nat>) {
    && !lane.phase.Idle? && lane.phase.attempt == |lane.attempts| - 1
    && lane.attempts[lane.phase.attempt].keys == keys
  }

  /** The drainer has read these keys and this body, and not sent anything yet. */
  ghost predicate HasRead(lane: Lane, keys: seq<nat>, body: bytes) {
    lane.phase.Taken? && IsAt(lane, keys) && lane.attempts[lane.phase.attempt].body == body
  }

  /** It knows that they are in the archive. */
  ghost predicate HasArchived(lane: Lane, keys: seq<nat>) {
    lane.phase.Acknowledged? && IsAt(lane, keys)
  }

  /** How many saves there were when the drainer read what it is at. */
  ghost function Upto(lane: Lane): nat {
    if lane.phase.Idle? || lane.phase.attempt >= |lane.attempts| then 0 else lane.attempts[lane.phase.attempt].hi
  }

  /** An insertion that lands late leaves the drain under way where it is. */
  ghost predicate SameDrain(a: Lane, b: Lane) {
    && a.phase == b.phase && a.removed == b.removed && |a.attempts| == |b.attempts|
    && (a.attempts != [] ==>
          var x, y := a.attempts[|a.attempts| - 1], b.attempts[|b.attempts| - 1];
          && x.keys == y.keys && x.body == y.body && x.hi == y.hi
          && (x.landed ==> y.landed) && WasSent(x) == WasSent(y))
  }

  lemma SameDrainAtAll(a: Lane)
    ensures SameDrain(a, a)
  {
  }

  lemma SameDrainAgain(a: Lane, b: Lane, c: Lane)
    requires SameDrain(a, b) && SameDrain(b, c)
    ensures SameDrain(a, c)
  {
  }

  lemma SameDrainHolds(a: Lane, b: Lane, keys: seq<nat>, body: bytes)
    requires SameDrain(a, b)
    ensures HasRead(a, keys, body) ==> HasRead(b, keys, body)
    ensures HasArchived(a, keys) ==> HasArchived(b, keys)
    ensures (a.phase.Idle? || a.phase.attempt == |a.attempts| - 1) ==> Upto(b) == Upto(a)
  {
  }

  lemma SameDrainKeeps(a: Lane, b: Lane, p: Progress, start: DrainStart, skipIfEmpty: bool, fate: Fate)
    requires SameDrain(a, b) && DrainAt(a, p, start, skipIfEmpty, fate)
    ensures DrainAt(b, p, start, skipIfEmpty, fate)
  {
  }

  // ---------------------------------------------------------------------------
  // How far a drain has come
  // ---------------------------------------------------------------------------

  /** What a drain finds: how many saves there were, how many had left the queue, and how many
      batches had been read from it. */
  datatype DrainStart = DrainStart(saves: nat, removed: nat, batches: nat)

  ghost function StartOf(w: World, q: QueueTable): DrainStart {
    DrainStart(|w.history|, w.LaneOf(q).removed, |w.LaneOf(q).attempts|)
  }

  /** A batch that was read has been sent. */
  ghost predicate IsSent(lane: Lane, batch: nat) {
    batch < |lane.attempts| && WasSent(lane.attempts[batch])
  }

  /** What a drain that is over has done: what it found has left the queue exactly when it succeeds;
      what was to land is in the archive; it has sent what it read, unless that was empty and it
      might skip it. */
  ghost predicate HasDrained(lane: Lane, start: DrainStart, skipIfEmpty: bool, fate: Fate, r: Result<(), DrainError>) {
    && (if r.Ok? then start.saves <= lane.removed else lane.removed == start.removed)
    && (fate.Completes? ==> r.Ok?) && (r.Ok? ==> fate.Completes? || skipIfEmpty)
    && start.batches <= |lane.attempts| <= start.batches + 1
    && (Lands(fate) ==>
          || start.saves <= lane.removed
          || (|lane.attempts| == start.batches + 1 && lane.attempts[start.batches].landed
              && start.saves <= lane.attempts[start.batches].hi))
    && (!skipIfEmpty && !fate.QueueUnreadable? ==> IsSent(lane, start.batches))
    && (skipIfEmpty && IsSent(lane, start.batches) ==> lane.attempts[start.batches].keys != [])
  }

  /** What a drain that has come so far says of its lane. */
  ghost predicate DrainAt(lane: Lane, p: Progress, start: DrainStart, skipIfEmpty: bool, fate: Fate) {
    match p
    case NotStarted => lane.phase.Idle? && lane.removed == start.removed && |lane.attempts| == start.batches
    case HasBatch(keys, body) =>
      && HasRead(lane, keys, body) && start.saves <= Upto(lane) && lane.removed == start.removed
      && |lane.attempts| == start.batches + 1 && (skipIfEmpty ==> keys != []) && !fate.QueueUnreadable?
    case Inserted(keys) =>
      && HasArchived(lane, keys) && start.saves <= Upto(lane) && lane.removed == start.removed
      && |lane.attempts| == start.batches + 1 && (skipIfEmpty ==> keys != [])
      && lane.attempts[start.batches].landed && (fate.RemovalFails? || fate.Completes?)
    case Finished(r) => lane.phase.Idle? && HasDrained(lane, start, skipIfEmpty, fate, r)
  }

  lemma DrainStarts(w: World, q: QueueTable, skipIfEmpty: bool, fate: Fate)
    requires w.LaneOf(q).phase.Idle?
    ensures DrainAt(w.LaneOf(q), NotStarted, StartOf(w, q), skipIfEmpty, fate)
  {
  }

  lemma DrainEnds(lane: Lane, p: Progress, start: DrainStart, skipIfEmpty: bool, fate: Fate)
    requires DrainAt(lane, p, start, skipIfEmpty, fate) && p.Finished?
    ensures lane.phase.Idle? && HasDrained(lane, start, skipIfEmpty, fate, p.result)
  {
  }

  // ---------------------------------------------------------------------------
  // What becomes of batches
  // ---------------------------------------------------------------------------

  /** A body that was sent may still land, or has landed. */
  ghost predicate WasSent(a: Attempt) {
    a.inFlight || a.landed
  }

  /** Batches are only added; those that are settled, because no drain is at them any more, are never
      sent again, and what was sent or has landed stays so. */
  ghost predicate GoesOn(a: Lane, b: Lane, settled: nat) {
    && |a.attempts| <= |b.attempts|
    && forall i :: 0 <= i < |a.attempts| ==>
         && b.attempts[i].keys == a.attempts[i].keys && b.attempts[i].hi == a.attempts[i].hi
         && (a.attempts[i].landed ==> b.attempts[i].landed) && (WasSent(a.attempts[i]) ==> WasSent(b.attempts[i]))
         && (i < settled && WasSent(b.attempts[i]) ==> WasSent(a.attempts[i]))
  }

  /** No drain is at a settled batch. */
  ghost predicate IsPast(lane: Lane, settled: nat) {
    settled <= |lane.attempts| && (lane.phase.Idle? || settled <= lane.phase.attempt)
  }

  lemma StepGoesOn(cfg: Config, w: World, e: Event, q: QueueTable, settled: nat)
    requires Apply(cfg, w, e).Some? && IsPast(w.LaneOf(q), settled)
    ensures GoesOn(w.LaneOf(q), Apply(cfg, w, e).value.LaneOf(q), settled)
    ensures IsPast(Apply(cfg, w, e).value.LaneOf(q), settled)
  {
    hide QueueBatch, NextSerial, CheckEnqueuing, SaveOf, Committed, Removed, SerialTaken, Lines, Range;
    if e.Commit? {
      CommitEvent(cfg, w, e);
      CommitStore(cfg, w, SaveOf(cfg, e.ctx, e.values, e.machine, e.savedAt).value);
    } else if !ActsOn(e, q) {
      hide Apply;
      OtherStepsLeaveQueue(cfg, w, e, q);
    }
  }

  lemma {:induction false} RunGoesOn(cfg: Config, run: seq<Event>, more: seq<Event>, q: QueueTable, settled: nat)
    requires Execute(cfg, run + more).Some?
    requires Execute(cfg, run).Some? ==> IsPast(Execute(cfg, run).value.LaneOf(q), settled)
    ensures Execute(cfg, run).Some?
    ensures GoesOn(Execute(cfg, run).value.LaneOf(q), Execute(cfg, run + more).value.LaneOf(q), settled)
    ensures IsPast(Execute(cfg, run + more).value.LaneOf(q), settled)
  {
    hide Apply, GoesOn, IsPast;
    if more == [] {
      assert run + more == run;
      SameGoesOn(Execute(cfg, run).value.LaneOf(q), settled);
    } else {
      var n := |more| - 1;
      assert (run + more)[..|run + more| - 1] == run + more[..n];
      RunGoesOn(cfg, run, more[..n], q, settled);
      var w := Execute(cfg, run + more[..n]).value;
      StepGoesOn(cfg, w, more[n], q, settled);
      GoesOnAgain(Execute(cfg, run).value.LaneOf(q), w.LaneOf(q), Execute(cfg, run + more).value.LaneOf(q), settled);
    }
  }

  lemma SameGoesOn(a: Lane, settled: nat)
    ensures GoesOn(a, a, settled)
  {
  }

  lemma GoesOnAgain(a: Lane, b: Lane, c: Lane, settled: nat)
    requires GoesOn(a, b, settled) && GoesOn(b, c, settled)
    ensures GoesOn(a, c, settled)
  {
  }

  /** An insertion has been sent, and has landed if it was to. */
  lemma InsertionIsSent(cfg: Config, run: seq<Event>, q: QueueTable, fate: Fate)
    requires Execute(cfg, run).Some? && Execute(cfg, run).value.LaneOf(q).phase.Taken?
    requires
      var a := Execute(cfg, run).value.LaneOf(q).phase.attempt;
      a < |Execute(cfg, run).value.LaneOf(q).attempts| && Execute(cfg, run + InsertEvents(q, a, fate)).Some?
    ensures
      var lane := Execute(cfg, run).value.LaneOf(q);
      var a := lane.phase.attempt;
      var next := Execute(cfg, run + InsertEvents(q, a, fate)).value.LaneOf(q);
      && |next.attempts| == |lane.attempts| && next.attempts[a].hi == lane.attempts[a].hi
      && next.attempts[a].keys == lane.attempts[a].keys
      && WasSent(next.attempts[a]) && (Lands(fate) ==> next.attempts[a].landed)
  {
    hide Execute, Lines, Range;
    var w := Execute(cfg, run).value;
    var a := w.LaneOf(q).phase.attempt;
    var events := InsertEvents(q, a, fate);
    StepForward(cfg, run, w, SendBatch(q));
    assert (run + events)[..|run + events| - 1] == run + events[..|events| - 1];
    var sent := run + [SendBatch(q)];
    if Lands(fate) {
      assert run + events[..2] == sent + [LandBatch(q, a)];
      LastOfRun(cfg, run + events);
      StepForward(cfg, sent, Execute(cfg, sent).value, LandBatch(q, a));
      StepForward(cfg, run + events[..2], Execute(cfg, run + events[..2]).value, events[2]);
      assert run + events == run + events[..2] + [events[2]];
    } else {
      assert run + events == sent + [FailDrain(q)];
      StepForward(cfg, sent, Execute(cfg, sent).value, FailDrain(q));
    }
  }

  /** The end of a drain, with or without a removal, leaves its batches as they are. */
  lemma RemovalLeavesBatches(cfg: Config, run: seq<Event>, q: QueueTable, commits: bool)
    requires Execute(cfg, run).Some?
    requires Execute(cfg, run + [if commits then RemoveBatch(q) else FailDrain(q)]).Some?
    ensures
      var lane := Execute(cfg, run).value.LaneOf(q);
      var next := Execute(cfg, run + [if commits then RemoveBatch(q) else FailDrain(q)]).value.LaneOf(q);
      && |next.attempts| == |lane.attempts|
      && forall i :: 0 <= i < |lane.attempts| ==>
           next.attempts[i] == lane.attempts[i].(removed := next.attempts[i].removed)
  {
    hide Execute, Removed;
    StepForward(cfg, run, Execute(cfg, run).value, if commits then RemoveBatch(q) else FailDrain(q));
  }

  lemma LastOfRun(cfg: Config, run: seq<Event>)
    requires run != [] && Execute(cfg, run).Some?
    ensures Execute(cfg, run[..|run| - 1]).Some?
  {
  }

  lemma DeliverySteps(lane: Lane, keys: seq<nat>, body: bytes)
    requires HasRead(lane, keys, body)
    ensures lane.phase.Taken? && lane.phase.attempt == |lane.attempts| - 1 && Send(lane).Some?
    ensures
      var sent := Send(lane).value;
      && sent.table == lane.table && sent.removed == lane.removed && Land(sent, lane.phase.attempt).Some?
      && var landed := Land(sent, lane.phase.attempt).value;
      && landed.table == lane.table + Lines(body) && landed.removed == lane.removed && Acknowledge(landed).Some?
      && var acknowledged := Acknowledge(landed).value;
      && acknowledged.table == landed.table && acknowledged.removed == lane.removed
      && HasArchived(acknowledged, keys) && Upto(acknowledged) == Upto(lane)
      && var a := lane.phase.attempt;
      && InFlight(sent.attempts) == InFlight(lane.attempts)[a := Some(body)]
      && InFlight(landed.attempts) == InFlight(lane.attempts)[a := None]
      && acknowledged.attempts == landed.attempts
  {
    hide Lines, Range;
  }

  /** A body in flight can land, and nothing else about the drain changes. */
  lemma LateLanding(lane: Lane, a: nat)
    requires a < |lane.attempts| && lane.attempts[a].inFlight
    ensures Land(lane, a).Some?
    ensures
      var landed := Land(lane, a).value;
      && landed.table == lane.table + Lines(lane.attempts[a].body) && SameDrain(lane, landed)
      && InFlight(landed.attempts) == InFlight(lane.attempts)[a := None]
  {
    hide Lines, Range;
  }

  lemma SnapshotHasRead(w: World, q: QueueTable)
    ensures
      var lane := Snapshot(w, q).LaneOf(q);
      && HasRead(lane, QueueBatch(w.store, q).0, QueueBatch(w.store, q).1)
      && Upto(lane) == |w.history| && AttemptOf(lane) == |w.LaneOf(q).attempts|
      && lane.table == w.LaneOf(q).table && lane.removed == w.LaneOf(q).removed
      && InFlight(lane.attempts) == InFlight(w.LaneOf(q).attempts) + [None]
    ensures Snapshot(w, q).LaneOf(OtherQueue(q)) == w.LaneOf(OtherQueue(q))
  {
    hide QueueBatch;
  }

  /** A queue that reads as empty holds the row of no save: all have left it. */
  lemma EmptyMeansCaughtUp(cfg: Config, run: seq<Event>, q: QueueTable)
    requires Execute(cfg, run).Some? && |Execute(cfg, run).value.history| <= MAX_SAVES
    requires QueueBatch(Execute(cfg, run).value.store, q).0 == []
    ensures Execute(cfg, run).value.LaneOf(q).removed == |Execute(cfg, run).value.history|
  {
    hide Execute, QueueBatch;
    ReachedQueue(cfg, run, q);
    var w := Execute(cfg, run).value;
    BatchIsTheRest(w.store, q, Rows(cfg, w.history, q), w.LaneOf(q).removed);
  }

  function AttemptOf(lane: Lane): nat {
    if lane.phase.Idle? then |lane.attempts| else lane.phase.attempt
  }

  function InsertEvents(q: QueueTable, attempt: nat, fate: Fate): seq<Event> {
    if !Lands(fate) then [SendBatch(q), FailDrain(q)]
    else [SendBatch(q), LandBatch(q, attempt), if fate.AcknowledgementLost? then FailDrain(q) else AcknowledgeBatch(q)]
  }

  // ---------------------------------------------------------------------------
  // A task of many drains
  // ---------------------------------------------------------------------------

  ghost predicate IsArchivedTo(lane: Lane, saves: nat) {
    || saves <= lane.removed
    || exists a :: 0 <= a < |lane.attempts| && lane.attempts[a].landed && saves <= lane.attempts[a].hi
  }

  /** What a drain with some fate, of what there was in some world, has come to. */
  ghost predicate DrainHolds(lane: Lane, before: World, fate: Fate) {
    && (fate.Completes? ==> |before.history| <= lane.removed)
    && (Lands(fate) ==> IsArchivedTo(lane, |before.history|))
  }

  /** What successive drains of a queue, of what there was in successive worlds, have come to. The
      first one sends what it reads, and the later ones send nothing empty. */
  ghost predicate DrainsHold(q: QueueTable, fates: seq<Fate>, marks: seq<World>, now: World) {
    var lane := now.LaneOf(q);
    && |fates| == |marks|
    && (forall i :: 0 <= i < |marks| ==>
          DrainHolds(lane, marks[i], fates[i]) && |marks[i].LaneOf(q).attempts| <= |lane.attempts|)
    && (fates != [] && !fates[0].QueueUnreadable? ==> IsSent(lane, |marks[0].LaneOf(q).attempts|))
    && (|fates| > 1 ==>
          forall a :: |marks[1].LaneOf(q).attempts| <= a && IsSent(lane, a) ==> lane.attempts[a].keys != [])
  }

  lemma DrainHoldsOn(a: Lane, b: Lane, before: World, fate: Fate, settled: nat)
    requires DrainHolds(a, before, fate) && GoesOn(a, b, settled) && a.removed <= b.removed
    ensures DrainHolds(b, before, fate)
  {
  }

  lemma DrainIsOver(lane: Lane, before: World, q: QueueTable, skipIfEmpty: bool, fate: Fate,
                    r: Result<(), DrainError>)
    requires HasDrained(lane, StartOf(before, q), skipIfEmpty, fate, r)
    ensures DrainHolds(lane, before, fate)
  {
  }

  lemma OneDrainMore(q: QueueTable, fates: seq<Fate>, marks: seq<World>, w: World, next: World, fate: Fate,
                     r: Result<(), DrainError>)
    requires DrainsHold(q, fates, marks, w) && w.LaneOf(q).removed <= |w.history|
    requires GoesOn(w.LaneOf(q), next.LaneOf(q), |w.LaneOf(q).attempts|)
    requires HasDrained(next.LaneOf(q), StartOf(w, q), fates != [], fate, r)
    ensures DrainsHold(q, fates + [fate], marks + [w], next)
  {
    hide DrainHolds, WasSent;
    var lane, fates', marks' := next.LaneOf(q), fates + [fate], marks + [w];
    DrainIsOver(lane, w, q, fates != [], fate, r);
    forall i | 0 <= i < |marks'|
      ensures DrainHolds(lane, marks'[i], fates'[i]) && |marks'[i].LaneOf(q).attempts| <= |lane.attempts|
    {
      if i < |marks| {
        DrainHoldsOn(w.LaneOf(q), lane, marks[i], fates[i], |w.LaneOf(q).attempts|);
      }
    }
  }

  lemma NoDrainYet(now: World)
    ensures forall q :: DrainsHold(q, [], [], now)
  {
  }

  /** What has landed is in the archive. */
  lemma ArchivedRows(queue: map<nat, Line>, rows: seq<Line>, offset: nat, lane: Lane, saves: nat, save: nat)
    requires LaneInv(queue, rows, offset, lane) && IsArchivedTo(lane, saves) && save < saves
    ensures save < |rows| && rows[save] in lane.table
  {
    hide CountsOk, RemovalsDisjoint, AttemptsOrdered, AttemptOk, PhaseOk, QueueHolds;
    InRange(save, Archived(lane));
    FirstSeenIsSeen(lane.tags);
    var j :| 0 <= j < |lane.tags| && lane.tags[j] == save;
    assert lane.table[j] == rows[save];
  }

  lemma {:induction false} FirstSeenIsSeen(tags: seq<nat>)
    ensures forall k :: k in FirstSeen(tags) ==> k in tags
  {
    if tags != [] {
      FirstSeenIsSeen(tags[..|tags| - 1]);
    }
  }

  /** A queue that all saves have left is empty. */
  lemma NothingQueued(queue: map<nat, Line>, rows: seq<Line>, offset: nat)
    requires QueueHolds(queue, rows, offset, |rows|)
    ensures queue == map[]
  {
    assert forall k :: k !in queue;
  }
}
