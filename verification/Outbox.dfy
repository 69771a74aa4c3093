/** One archiving queue and the drainer that empties it: what each step keeps. */
module Outbox {
  import opened Wrappers
  import opened Bytes
  import opened Ordering

  /** An attempt at draining: a snapshot of the queue, and what became of its insertion.
      `lo` and `hi` are history variables: the saves whose rows the snapshot holds. */
  datatype Attempt = Attempt(lo: nat, hi: nat, keys: seq<nat>, body: bytes, inFlight: bool, landed: bool, removed: bool)

  /** Where the drainer of a queue is, between two points where it waits. */
  datatype Phase = Idle | Taken(attempt: nat) | Sent(attempt: nat) | Acknowledged(attempt: nat)

  /** The drainer, its past attempts, and the archive table it fills. History variables: `tags`
      says which save each archived row is of, `removed` how many saves have left the queue. */
  datatype Lane = Lane(phase: Phase, attempts: seq<Attempt>, table: seq<Line>, tags: seq<nat>, removed: nat)

  const NEW_LANE: Lane := Lane(Idle, [], [], [], 0)

  /** `[lo, lo + 1, ..., hi - 1]` */
  function Range(lo: nat, hi: nat): (r: seq<nat>)
    ensures |r| == (if lo <= hi then hi - lo else 0) && forall i :: 0 <= i < |r| ==> r[i] == lo + i
  {
    seq(if lo <= hi then hi - lo else 0, i requires 0 <= i => lo + i)
  }

  lemma RangeSnoc(lo: nat, hi: nat)
    requires lo < hi
    ensures Range(lo, hi) == Range(lo, hi - 1) + [hi - 1]
  {
  }

  lemma InRange(k: nat, hi: nat)
    ensures k in Range(0, hi) <==> k < hi
  {
    assert k < hi ==> Range(0, hi)[k] == k;
  }

  function KeyOf(save: nat, offset: nat): nat {
    2 * save + offset
  }

  function KeyRange(lo: nat, hi: nat, offset: nat): (r: seq<nat>)
    requires lo <= hi
    ensures |r| == hi - lo && forall i :: 0 <= i < |r| ==> r[i] == KeyOf(lo + i, offset)
  {
    seq<nat>(hi - lo, i requires 0 <= i => KeyOf(lo + i, offset))
  }

  // ---------------------------------------------------------------------------
  // Steps
  // ---------------------------------------------------------------------------

  /** The drainer reads the queue. */
  function TakeSnapshot(lane: Lane, saves: nat, keys: seq<nat>, body: bytes): Lane {
    lane.(phase := Taken(|lane.attempts|),
          attempts := lane.attempts + [Attempt(lane.removed, saves, keys, body, false, false, false)])
  }

  /** It sends the body it has read. */
  function Send(lane: Lane): Option<Lane> {
    match lane.phase
    case Taken(a) =>
      if a < |lane.attempts| then
        Some(lane.(phase := Sent(a), attempts := lane.attempts[a := lane.attempts[a].(inFlight := true)]))
      else None
    case _ => None
  }

  /** A body that was sent lands in the table, now or long after the drainer gave up on it. */
  function Land(lane: Lane, a: nat): Option<Lane> {
    if a < |lane.attempts| && lane.attempts[a].inFlight then
      var attempt := lane.attempts[a];
      Some(lane.(attempts := lane.attempts[a := attempt.(inFlight := false, landed := true)],
                 table := lane.table + Lines(attempt.body),
                 tags := lane.tags + Range(attempt.lo, attempt.hi)))
    else None
  }

  /** The drainer learns that its insertion landed. */
  function Acknowledge(lane: Lane): Option<Lane> {
    match lane.phase
    case Sent(a) =>
      if a < |lane.attempts| && lane.attempts[a].landed then Some(lane.(phase := Acknowledged(a))) else None
    case _ => None
  }

  /** The drainer fails, times out, or dies with the process. */
  function GiveUp(lane: Lane): Lane {
    lane.(phase := Idle)
  }

  /** The removal of the acknowledged keys commits. */
  function CommitRemoval(lane: Lane): Option<Lane> {
    match lane.phase
    case Acknowledged(a) =>
      if a < |lane.attempts| then
        Some(lane.(phase := Idle,
                   attempts := lane.attempts[a := lane.attempts[a].(removed := true)],
                   removed := lane.attempts[a].hi))
      else None
    case _ => None
  }

  // ---------------------------------------------------------------------------
  // First occurrences and copies
  // ---------------------------------------------------------------------------

  /** What is left of a table when only the first row of each save is kept, in table order. */
  function FirstSeen(tags: seq<nat>): seq<nat> {
    if tags == [] then []
    else
      var seen := FirstSeen(tags[..|tags| - 1]);
      var last := tags[|tags| - 1];
      if last in seen then seen else seen + [last]
  }

  function FirstRows(table: seq<Line>, tags: seq<nat>): seq<Line>
    requires |table| == |tags|
  {
    if tags == [] then []
    else
      var n := |tags| - 1;
      if tags[n] in FirstSeen(tags[..n]) then FirstRows(table[..n], tags[..n])
      else FirstRows(table[..n], tags[..n]) + [table[n]]
  }

  lemma FirstSeenSnoc(tags: seq<nat>, save: nat)
    ensures FirstSeen(tags + [save]) == if save in FirstSeen(tags) then FirstSeen(tags) else FirstSeen(tags) + [save]
  {
    assert (tags + [save])[..|tags|] == tags;
  }

  lemma {:induction false} FirstSeenGrows(tags: seq<nat>, h: nat, lo: nat, hi: nat)
    requires FirstSeen(tags) == Range(0, h)
    requires lo <= h && lo <= hi
    ensures FirstSeen(tags + Range(lo, hi)) == Range(0, if h <= hi then hi else h)
  {
    hide FirstSeen, Range;
    if lo == hi {
      assert tags + Range(lo, hi) == tags;
    } else {
      var before := tags + Range(lo, hi - 1);
      FirstSeenGrows(tags, h, lo, hi - 1);
      RangeSnoc(lo, hi);
      assert tags + Range(lo, hi) == before + [hi - 1] by {
        assert tags + (Range(lo, hi - 1) + [hi - 1]) == before + [hi - 1];
      }
      FirstSeenSnoc(before, hi - 1);
      InRange(hi - 1, if h <= hi - 1 then hi - 1 else h);
      RangeSnoc(0, hi);
    }
  }

  lemma {:induction false} SeenIffTagged(tags: seq<nat>, k: nat)
    ensures k in FirstSeen(tags) <==> k in tags
  {
    if tags != [] {
      var n := |tags| - 1;
      SeenIffTagged(tags[..n], k);
      assert tags == tags[..n] + [tags[n]];
    }
  }

  lemma {:induction false} FirstRowsAreRows(rows: seq<Line>, table: seq<Line>, tags: seq<nat>)
    requires |table| == |tags|
    requires forall j :: 0 <= j < |tags| ==> tags[j] < |rows| && table[j] == rows[tags[j]]
    ensures |FirstRows(table, tags)| == |FirstSeen(tags)|
    ensures forall j :: 0 <= j < |FirstSeen(tags)| ==>
              FirstSeen(tags)[j] < |rows| && FirstRows(table, tags)[j] == rows[FirstSeen(tags)[j]]
  {
    if tags != [] {
      var n := |tags| - 1;
      FirstRowsAreRows(rows, table[..n], tags[..n]);
    }
  }

  function Copies(tags: seq<nat>, save: nat): nat {
    multiset(tags)[save]
  }

  predicate Holds(a: Attempt, save: nat) {
    a.lo <= save < a.hi
  }

  /** The attempts that put a row of a save in the archive. */
  ghost function LandedWith(attempts: seq<Attempt>, save: nat): set<nat> {
    set i | 0 <= i < |attempts| && attempts[i].landed && Holds(attempts[i], save)
  }

  /** Those of them whose removal did not commit. */
  ghost function UnremovedWith(attempts: seq<Attempt>, save: nat): set<nat> {
    set i | 0 <= i < |attempts| && attempts[i].landed && !attempts[i].removed && Holds(attempts[i], save)
  }

  lemma {:induction false} CopiesInRange(lo: nat, hi: nat, save: nat)
    requires lo <= hi
    ensures Copies(Range(lo, hi), save) == if lo <= save < hi then 1 else 0
  {
    if lo < hi {
      CopiesInRange(lo, hi - 1, save);
      assert Range(lo, hi) == Range(lo, hi - 1) + [hi - 1];
    }
  }

  // ---------------------------------------------------------------------------
  // The invariant
  // ---------------------------------------------------------------------------

  /** The queue holds exactly the rows of the saves from `removed` on, under their own keys. */
  ghost predicate QueueHolds(queue: map<nat, Line>, rows: seq<Line>, offset: nat, removed: nat) {
    && removed <= |rows|
    && (forall i :: removed <= i < |rows| ==> KeyOf(i, offset) in queue && queue[KeyOf(i, offset)] == rows[i])
    && (forall k :: k in queue ==> removed <= k / 2 < |rows| && k == KeyOf(k / 2, offset))
  }

  ghost predicate AttemptOk(a: Attempt, rows: seq<Line>, offset: nat, removed: nat) {
    && a.lo <= a.hi <= |rows| && a.lo <= removed
    && a.keys == KeyRange(a.lo, a.hi, offset)
    && a.body == Unlines(rows[a.lo..a.hi])
    && (a.removed ==> a.landed && a.hi <= removed)
    && (a.inFlight ==> !a.landed)
  }

  ghost predicate PhaseOk(lane: Lane) {
    match lane.phase
    case Idle => true
    case Taken(a) =>
      && a == |lane.attempts| - 1 && lane.attempts[a].lo == lane.removed
      && !lane.attempts[a].inFlight && !lane.attempts[a].landed
    case Sent(a) =>
      && a == |lane.attempts| - 1 && lane.attempts[a].lo == lane.removed
      && (lane.attempts[a].inFlight || lane.attempts[a].landed) && !lane.attempts[a].removed
    case Acknowledged(a) =>
      && a == |lane.attempts| - 1 && lane.attempts[a].lo == lane.removed
      && lane.attempts[a].landed && !lane.attempts[a].removed
  }

  /** Attempts whose removal committed hold successive stretches of the history. */
  ghost predicate RemovalsDisjoint(attempts: seq<Attempt>) {
    forall i, j :: 0 <= i < j < |attempts| && attempts[i].removed && attempts[j].removed ==>
      attempts[i].hi <= attempts[j].lo
  }

  /** No removal committed for the attempts from one to before another. */
  ghost predicate NoneRemoved(attempts: seq<Attempt>, i: nat, j: nat)
    requires j <= |attempts|
  {
    forall k :: i <= k < j ==> !attempts[k].removed
  }

  /** Later snapshots reach at least as far, and start at the same save until a removal commits. */
  ghost predicate AttemptsOrdered(lane: Lane) {
    && (forall i, j :: 0 <= i < j < |lane.attempts| ==> lane.attempts[i].hi <= lane.attempts[j].hi)
    && (forall i, j :: 0 <= i < j < |lane.attempts| && NoneRemoved(lane.attempts, i, j) ==>
          lane.attempts[i].lo == lane.attempts[j].lo)
    && (forall i :: 0 <= i < |lane.attempts| && NoneRemoved(lane.attempts, i, |lane.attempts|) ==>
          lane.attempts[i].lo == lane.removed)
  }

  ghost predicate ArchiveOk(lane: Lane, rows: seq<Line>) {
    && |lane.table| == |lane.tags|
    && (forall j :: 0 <= j < |lane.tags| ==> lane.tags[j] < |rows| && lane.table[j] == rows[lane.tags[j]])
  }

  /** How many saves have a row in the archive. */
  function Archived(lane: Lane): nat {
    |FirstSeen(lane.tags)|
  }

  ghost predicate PrefixOk(lane: Lane) {
    && FirstSeen(lane.tags) == Range(0, Archived(lane))
    && lane.removed <= Archived(lane)
    && (forall i :: 0 <= i < |lane.attempts| && lane.attempts[i].landed ==> lane.attempts[i].hi <= Archived(lane))
  }

  ghost predicate CountsOk(lane: Lane) {
    forall save: nat :: Copies(lane.tags, save) == |LandedWith(lane.attempts, save)|
  }

  /** What every step keeps of a queue, its drainer and its archive table. */
  ghost predicate LaneInv(queue: map<nat, Line>, rows: seq<Line>, offset: nat, lane: Lane) {
    && offset < 2
    && QueueHolds(queue, rows, offset, lane.removed)
    && (forall i :: 0 <= i < |lane.attempts| ==> AttemptOk(lane.attempts[i], rows, offset, lane.removed))
    && PhaseOk(lane)
    && RemovalsDisjoint(lane.attempts)
    && AttemptsOrdered(lane)
    && ArchiveOk(lane, rows)
    && PrefixOk(lane)
    && CountsOk(lane)
  }

  lemma NewLane(offset: nat)
    requires offset < 2
    ensures LaneInv(map[], [], offset, NEW_LANE)
  {
    forall save: nat ensures Copies(NEW_LANE.tags, save) == |LandedWith(NEW_LANE.attempts, save)| {
      assert LandedWith([], save) == {};
    }
  }

  /** Order is about which saves snapshots hold, and which of them were removed. */
  lemma SameOrder(lane: Lane, next: Lane)
    requires AttemptsOrdered(lane) && next.removed == lane.removed && |next.attempts| == |lane.attempts|
    requires forall k :: 0 <= k < |lane.attempts| ==>
               && next.attempts[k].lo == lane.attempts[k].lo && next.attempts[k].hi == lane.attempts[k].hi
               && next.attempts[k].removed == lane.attempts[k].removed
    ensures AttemptsOrdered(next)
  {
    forall i, j | 0 <= i <= j <= |next.attempts| && NoneRemoved(next.attempts, i, j)
      ensures NoneRemoved(lane.attempts, i, j)
    {
      assert forall k :: i <= k < j ==> next.attempts[k].removed == lane.attempts[k].removed;
    }
  }

  lemma SnapshotKeepsOrder(lane: Lane, saves: nat, keys: seq<nat>, body: bytes)
    requires AttemptsOrdered(lane) && forall k :: 0 <= k < |lane.attempts| ==> lane.attempts[k].hi <= saves
    ensures AttemptsOrdered(TakeSnapshot(lane, saves, keys, body))
  {
    var next := TakeSnapshot(lane, saves, keys, body);
    var n := |lane.attempts|;
    forall i, j | 0 <= i <= j <= |next.attempts| && NoneRemoved(next.attempts, i, j)
      ensures NoneRemoved(lane.attempts, i, if j <= n then j else n)
    {
      assert forall k :: i <= k < j && k < n ==> next.attempts[k] == lane.attempts[k];
    }
  }

  lemma RemovalKeepsOrder(lane: Lane)
    requires AttemptsOrdered(lane) && CommitRemoval(lane).Some? && lane.phase.attempt == |lane.attempts| - 1
    ensures AttemptsOrdered(CommitRemoval(lane).value)
  {
    var next := CommitRemoval(lane).value;
    var n := |lane.attempts|;
    assert next.attempts[n - 1].removed;
    forall i, j | 0 <= i < j < n && NoneRemoved(next.attempts, i, j) ensures NoneRemoved(lane.attempts, i, j) {
      assert forall k :: i <= k < j ==> next.attempts[k] == lane.attempts[k];
    }
  }

  lemma EnqueueKeeps(queue: map<nat, Line>, rows: seq<Line>, offset: nat, lane: Lane, row: Line)
    requires LaneInv(queue, rows, offset, lane)
    ensures LaneInv(queue[KeyOf(|rows|, offset) := row], rows + [row], offset, lane)
    ensures KeyOf(|rows|, offset) !in queue
  {
    hide AttemptsOrdered;
    forall i | 0 <= i < |lane.attempts|
      ensures AttemptOk(lane.attempts[i], rows + [row], offset, lane.removed)
    {
      var a := lane.attempts[i];
      assert AttemptOk(a, rows, offset, lane.removed);
      assert (rows + [row])[a.lo..a.hi] == rows[a.lo..a.hi];
    }
  }

  lemma SnapshotKeys(queue: map<nat, Line>, rows: seq<Line>, offset: nat, removed: nat, keys: seq<nat>)
    requires QueueHolds(queue, rows, offset, removed) && offset < 2
    requires Increasing(keys) && forall k :: k in keys <==> k in queue
    ensures keys == KeyRange(removed, |rows|, offset)
  {
    hide KeyRange;
    var expected := KeyRange(removed, |rows|, offset);
    forall k | k in queue ensures k in expected {
      assert expected[k / 2 - removed] == k;
    }
    forall i | 0 <= i < |expected| ensures expected[i] in queue {
      assert KeyOf(removed + i, offset) in queue;
    }
    OrderIsUnique(keys, expected);
  }

  lemma SnapshotRows(queue: map<nat, Line>, rows: seq<Line>, offset: nat, removed: nat)
    requires QueueHolds(queue, rows, offset, removed)
    ensures forall k :: k in KeyRange(removed, |rows|, offset) ==> k in queue
    ensures RowsAt(queue, KeyRange(removed, |rows|, offset)) == rows[removed..]
  {
    hide KeyRange;
    var keys := KeyRange(removed, |rows|, offset);
    forall i | 0 <= i < |keys| ensures keys[i] in queue && queue[keys[i]] == rows[removed + i] {
      assert keys[i] == KeyOf(removed + i, offset);
    }
  }

  /** What the drainer reads: the keys of the rows left, in order, and a body of these rows. */
  lemma SnapshotReadsTheRest(queue: map<nat, Line>, rows: seq<Line>, offset: nat, removed: nat, keys: seq<nat>)
    requires QueueHolds(queue, rows, offset, removed) && offset < 2
    requires Increasing(keys) && forall k :: k in keys <==> k in queue
    ensures keys == KeyRange(removed, |rows|, offset)
    ensures RowsAt(queue, keys) == rows[removed..]
  {
    hide KeyRange, RowsAt;
    SnapshotKeys(queue, rows, offset, removed, keys);
    SnapshotRows(queue, rows, offset, removed);
  }

  lemma SnapshotKeeps(queue: map<nat, Line>, rows: seq<Line>, offset: nat, lane: Lane, keys: seq<nat>, body: bytes)
    requires LaneInv(queue, rows, offset, lane) && lane.phase.Idle?
    requires keys == KeyRange(lane.removed, |rows|, offset) && body == Unlines(rows[lane.removed..])
    ensures LaneInv(queue, rows, offset, TakeSnapshot(lane, |rows|, keys, body))
  {
    hide AttemptsOrdered;
    var next := TakeSnapshot(lane, |rows|, keys, body);
    assert rows[lane.removed..] == rows[lane.removed..|rows|];
    forall k | 0 <= k < |lane.attempts| ensures lane.attempts[k].hi <= |rows| {
      assert AttemptOk(lane.attempts[k], rows, offset, lane.removed);
    }
    SnapshotKeepsOrder(lane, |rows|, keys, body);
    forall save: nat ensures Copies(next.tags, save) == |LandedWith(next.attempts, save)| {
      assert LandedWith(next.attempts, save) == LandedWith(lane.attempts, save);
    }
  }

  lemma SendKeeps(queue: map<nat, Line>, rows: seq<Line>, offset: nat, lane: Lane)
    requires LaneInv(queue, rows, offset, lane) && Send(lane).Some?
    ensures LaneInv(queue, rows, offset, Send(lane).value)
  {
    hide AttemptsOrdered;
    var next := Send(lane).value;
    SameOrder(lane, next);
    forall save: nat ensures Copies(next.tags, save) == |LandedWith(next.attempts, save)| {
      assert LandedWith(next.attempts, save) == LandedWith(lane.attempts, save);
    }
  }

  lemma HoldsIsAboutTheSnapshot(a: Attempt, b: Attempt, save: nat)
    requires a.lo == b.lo && a.hi == b.hi
    ensures Holds(a, save) == Holds(b, save)
  {
  }

  lemma LandedOnce(attempts: seq<Attempt>, a: nat, save: nat)
    requires a < |attempts| && !attempts[a].landed
    ensures
      var next := attempts[a := attempts[a].(inFlight := false, landed := true)];
      |LandedWith(next, save)| == |LandedWith(attempts, save)| + if Holds(attempts[a], save) then 1 else 0
  {
    hide Holds;
    var next := attempts[a := attempts[a].(inFlight := false, landed := true)];
    forall i | 0 <= i < |next| ensures Holds(next[i], save) == Holds(attempts[i], save) {
      HoldsIsAboutTheSnapshot(next[i], attempts[i], save);
    }
    assert a !in LandedWith(attempts, save);
    if Holds(attempts[a], save) {
      assert LandedWith(next, save) == LandedWith(attempts, save) + {a};
    } else {
      assert LandedWith(next, save) == LandedWith(attempts, save);
    }
  }

  lemma LandKeepsCounts(lane: Lane, a: nat)
    requires CountsOk(lane) && Land(lane, a).Some? && !lane.attempts[a].landed &&
             lane.attempts[a].lo <= lane.attempts[a].hi
    ensures CountsOk(Land(lane, a).value)
  {
    var attempt := lane.attempts[a];
    var next := Land(lane, a).value;
    forall save: nat ensures Copies(next.tags, save) == |LandedWith(next.attempts, save)| {
      LandedOnce(lane.attempts, a, save);
      CopiesInRange(attempt.lo, attempt.hi, save);
    }
  }

  lemma LandKeepsArchive(rows: seq<Line>, lane: Lane, a: nat)
    requires ArchiveOk(lane, rows) && Land(lane, a).Some?
    requires lane.attempts[a].lo <= lane.attempts[a].hi <= |rows|
    requires lane.attempts[a].body == Unlines(rows[lane.attempts[a].lo..lane.attempts[a].hi])
    ensures ArchiveOk(Land(lane, a).value, rows)
  {
    hide Lines, Unlines, Range;
    var attempt := lane.attempts[a];
    var next := Land(lane, a).value;
    LinesOfUnlines(rows[attempt.lo..attempt.hi]);
    forall j | 0 <= j < |next.tags| ensures next.tags[j] < |rows| && next.table[j] == rows[next.tags[j]] {
      if j >= |lane.tags| {
        assert next.tags[j] == Range(attempt.lo, attempt.hi)[j - |lane.tags|];
      }
    }
  }

  lemma LandKeepsPrefix(lane: Lane, a: nat)
    requires PrefixOk(lane) && Land(lane, a).Some?
    requires lane.attempts[a].lo <= lane.removed && lane.attempts[a].lo <= lane.attempts[a].hi
    ensures PrefixOk(Land(lane, a).value)
  {
    FirstSeenGrows(lane.tags, Archived(lane), lane.attempts[a].lo, lane.attempts[a].hi);
  }

  lemma LandKeeps(queue: map<nat, Line>, rows: seq<Line>, offset: nat, lane: Lane, a: nat)
    requires LaneInv(queue, rows, offset, lane) && Land(lane, a).Some?
    ensures LaneInv(queue, rows, offset, Land(lane, a).value)
  {
    hide AttemptsOrdered;
    assert AttemptOk(lane.attempts[a], rows, offset, lane.removed);
    SameOrder(lane, Land(lane, a).value);
    LandKeepsCounts(lane, a);
    LandKeepsArchive(rows, lane, a);
    LandKeepsPrefix(lane, a);
  }

  lemma AcknowledgeKeeps(queue: map<nat, Line>, rows: seq<Line>, offset: nat, lane: Lane)
    requires LaneInv(queue, rows, offset, lane) && Acknowledge(lane).Some?
    ensures LaneInv(queue, rows, offset, Acknowledge(lane).value)
  {
    hide AttemptsOrdered;
    SameOrder(lane, Acknowledge(lane).value);
  }

  lemma GiveUpKeeps(queue: map<nat, Line>, rows: seq<Line>, offset: nat, lane: Lane)
    requires LaneInv(queue, rows, offset, lane)
    ensures LaneInv(queue, rows, offset, GiveUp(lane))
  {
    hide AttemptsOrdered;
    SameOrder(lane, GiveUp(lane));
  }

  /** Removing the keys of a snapshot takes away its rows, and leaves every later row. */
  lemma RemovalTakesTheSnapshot(queue: map<nat, Line>, rows: seq<Line>, offset: nat, lo: nat, hi: nat)
    requires QueueHolds(queue, rows, offset, lo) && offset < 2
    requires lo <= hi <= |rows|
    ensures QueueHolds(queue - (set k | k in KeyRange(lo, hi, offset)), rows, offset, hi)
  {
    var keys := KeyRange(lo, hi, offset);
    forall i | hi <= i < |rows| ensures KeyOf(i, offset) !in keys {
    }
    forall k | k in queue ensures k in keys || hi <= k / 2 {
      if k / 2 < hi {
        assert keys[k / 2 - lo] == k;
      }
    }
  }

  lemma RemovalKeepsAttempts(rows: seq<Line>, offset: nat, lane: Lane)
    requires forall i :: 0 <= i < |lane.attempts| ==> AttemptOk(lane.attempts[i], rows, offset, lane.removed)
    requires PhaseOk(lane) && RemovalsDisjoint(lane.attempts) && CommitRemoval(lane).Some?
    ensures
      var next := CommitRemoval(lane).value;
      && (forall i :: 0 <= i < |next.attempts| ==> AttemptOk(next.attempts[i], rows, offset, next.removed))
      && RemovalsDisjoint(next.attempts)
  {
    hide KeyRange, Unlines;
    var next := CommitRemoval(lane).value;
    assert AttemptOk(lane.attempts[lane.phase.attempt], rows, offset, lane.removed);
    forall i | 0 <= i < |next.attempts| ensures AttemptOk(next.attempts[i], rows, offset, next.removed) {
      assert AttemptOk(lane.attempts[i], rows, offset, lane.removed);
    }
  }

  lemma RemovalKeepsCounts(lane: Lane)
    requires CountsOk(lane) && CommitRemoval(lane).Some?
    ensures CountsOk(CommitRemoval(lane).value)
  {
    var next := CommitRemoval(lane).value;
    forall save: nat ensures Copies(next.tags, save) == |LandedWith(next.attempts, save)| {
      assert LandedWith(next.attempts, save) == LandedWith(lane.attempts, save);
    }
  }

  lemma RemovalKeeps(queue: map<nat, Line>, rows: seq<Line>, offset: nat, lane: Lane)
    requires LaneInv(queue, rows, offset, lane) && CommitRemoval(lane).Some?
    ensures LaneInv(queue - (set k | k in lane.attempts[lane.phase.attempt].keys), rows, offset,
            CommitRemoval(lane).value)
  {
    hide FirstSeen, Range, KeyRange, Unlines, AttemptsOrdered, CountsOk, RemovalsDisjoint, QueueHolds;
    var attempt := lane.attempts[lane.phase.attempt];
    assert AttemptOk(attempt, rows, offset, lane.removed);
    RemovalTakesTheSnapshot(queue, rows, offset, attempt.lo, attempt.hi);
    RemovalKeepsOrder(lane);
    RemovalKeepsAttempts(rows, offset, lane);
    RemovalKeepsCounts(lane);
  }

  // ---------------------------------------------------------------------------
  // What the invariant says
  // ---------------------------------------------------------------------------

  /** Every row of the history is queued under its key, or archived. */
  lemma NothingIsLost(queue: map<nat, Line>, rows: seq<Line>, offset: nat, lane: Lane, save: nat)
    requires LaneInv(queue, rows, offset, lane) && save < |rows|
    ensures || (KeyOf(save, offset) in queue && queue[KeyOf(save, offset)] == rows[save])
            || (exists j :: 0 <= j < |lane.tags| && lane.tags[j] == save && lane.table[j] == rows[save])
  {
    if save < lane.removed {
      assert Range(0, Archived(lane))[save] == save;
      SeenIffTagged(lane.tags, save);
      var j :| 0 <= j < |lane.tags| && lane.tags[j] == save;
    }
  }

  /** The first copies of the archived rows are a prefix of the history, in its order. */
  lemma FirstCopiesAreAPrefix(queue: map<nat, Line>, rows: seq<Line>, offset: nat, lane: Lane)
    requires LaneInv(queue, rows, offset, lane)
    ensures lane.removed <= Archived(lane) <= |rows|
    ensures FirstRows(lane.table, lane.tags) == rows[..Archived(lane)]
  {
    FirstRowsAreRows(rows, lane.table, lane.tags);
    var h := Archived(lane);
    if h > 0 {
      assert Range(0, h)[h - 1] == h - 1;
    }
    forall j | 0 <= j < h ensures FirstRows(lane.table, lane.tags)[j] == rows[j] {
      assert Range(0, h)[j] == j;
    }
  }

  lemma {:induction false} AtMostOne(s: set<nat>)
    requires forall i, j :: i in s && j in s ==> i == j
    ensures |s| <= 1
  {
    if s != {} {
      var x :| x in s;
      assert s == {x};
    }
  }

  /** A row has one copy for each attempt that landed with it; at most one of these attempts
      went on to remove it. */
  lemma CopiesAreLandings(queue: map<nat, Line>, rows: seq<Line>, offset: nat, lane: Lane, save: nat)
    requires LaneInv(queue, rows, offset, lane)
    ensures Copies(lane.tags, save) == |LandedWith(lane.attempts, save)|
    ensures Copies(lane.tags, save) <= 1 + |UnremovedWith(lane.attempts, save)|
  {
    var all, unremoved := LandedWith(lane.attempts, save), UnremovedWith(lane.attempts, save);
    var removed := all - unremoved;
    assert all == removed + unremoved;
    AtMostOne(removed);
  }

  lemma {:induction false} NoRepeats(tags: seq<nat>)
    requires forall save: nat :: Copies(tags, save) <= 1
    ensures FirstSeen(tags) == tags
  {
    if tags != [] {
      var n := |tags| - 1;
      assert tags == tags[..n] + [tags[n]];
      forall save: nat ensures Copies(tags[..n], save) <= 1 {
        assert Copies(tags, save) <= 1;
      }
      NoRepeats(tags[..n]);
      assert Copies(tags, tags[n]) <= 1;
    }
  }

  ghost predicate AllLandingsRemoved(lane: Lane) {
    forall i :: 0 <= i < |lane.attempts| && lane.attempts[i].landed ==> lane.attempts[i].removed
  }

  lemma AllRemovedMeansOnce(queue: map<nat, Line>, rows: seq<Line>, offset: nat, lane: Lane)
    requires LaneInv(queue, rows, offset, lane) && AllLandingsRemoved(lane)
    ensures lane.tags == Range(0, Archived(lane))
  {
    forall save: nat ensures Copies(lane.tags, save) <= 1 {
      CopiesAreLandings(queue, rows, offset, lane, save);
      assert UnremovedWith(lane.attempts, save) == {};
    }
    NoRepeats(lane.tags);
  }

  lemma AllRemovedMeansCaughtUp(queue: map<nat, Line>, rows: seq<Line>, offset: nat, lane: Lane)
    requires LaneInv(queue, rows, offset, lane) && AllLandingsRemoved(lane)
    ensures lane.removed == Archived(lane)
  {
    AllRemovedMeansOnce(queue, rows, offset, lane);
    var h := Archived(lane);
    if h > 0 {
      assert lane.tags[h - 1] == h - 1;
      assert Copies(lane.tags, h - 1) > 0;
      assert LandedWith(lane.attempts, h - 1) != {};
      var i :| i in LandedWith(lane.attempts, h - 1);
      assert AttemptOk(lane.attempts[i], rows, offset, lane.removed);
    }
  }

  /** When every insertion that landed was followed by its removal, the table followed by the
      queue is the history, row for row. */
  lemma TableThenQueueIsHistory(queue: map<nat, Line>, rows: seq<Line>, offset: nat, lane: Lane)
    requires LaneInv(queue, rows, offset, lane) && AllLandingsRemoved(lane)
    ensures lane.removed <= |rows|
    ensures lane.table + rows[lane.removed..] == rows
  {
    AllRemovedMeansOnce(queue, rows, offset, lane);
    AllRemovedMeansCaughtUp(queue, rows, offset, lane);
    assert lane.table == rows[..lane.removed];
  }

  /** Two snapshots with no removal in between start at the same save, and the later body is the
      earlier one followed by the rows saved since. */
  lemma RetriesExtend(queue: map<nat, Line>, rows: seq<Line>, offset: nat, lane: Lane, i: nat, j: nat)
    requires LaneInv(queue, rows, offset, lane)
    requires i < j < |lane.attempts| && NoneRemoved(lane.attempts, i, j)
    ensures lane.attempts[i].lo == lane.attempts[j].lo
    ensures lane.attempts[i].hi <= lane.attempts[j].hi <= |rows|
    ensures lane.attempts[j].body == lane.attempts[i].body + Unlines(rows[lane.attempts[i].hi..lane.attempts[j].hi])
    ensures lane.attempts[i].keys <= lane.attempts[j].keys
  {
    hide Unlines, PrefixOk, CountsOk, ArchiveOk, PhaseOk, QueueHolds;
    var a, b := lane.attempts[i], lane.attempts[j];
    assert AttemptOk(a, rows, offset, lane.removed) && AttemptOk(b, rows, offset, lane.removed);
    UnlinesConcat(rows[a.lo..a.hi], rows[a.hi..b.hi]);
    assert rows[a.lo..a.hi] + rows[a.hi..b.hi] == rows[a.lo..b.hi];
  }

  /** Splitting the body of any attempt at its newlines gives one row per key, each the row
      saved under that key. */
  lemma BodiesFrameTheirRows(queue: map<nat, Line>, rows: seq<Line>, offset: nat, lane: Lane, i: nat)
    requires LaneInv(queue, rows, offset, lane) && i < |lane.attempts|
    ensures lane.attempts[i].lo <= lane.attempts[i].hi <= |rows|
    ensures Lines(lane.attempts[i].body) == rows[lane.attempts[i].lo..lane.attempts[i].hi]
    ensures lane.attempts[i].keys == KeyRange(lane.attempts[i].lo, lane.attempts[i].hi, offset)
  {
    var a := lane.attempts[i];
    assert AttemptOk(a, rows, offset, lane.removed);
    LinesOfUnlines(rows[a.lo..a.hi]);
  }
}
