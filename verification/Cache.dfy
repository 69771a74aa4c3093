/** The persistent cache: serial numbers, last saved sheets, and the two archiving queues. */
module Cache {
  import opened Wrappers
  import opened Bytes
  import opened AsciiText
  import opened Calendar
  import opened Variants
  import opened PartSheets
  import opened Ordering
  import BinaryEncoding
  import Json

  datatype QueueTable = General | Operation

  /** A request to save the part sheets of a part. */
  datatype Save = Save(savedAt: Instant, machine: Utf8, part: PartId, general: seq<Item>, operation: seq<Item>) {
    function Sheet(q: QueueTable): seq<Item> {
      match q
      case General => general
      case Operation => operation
    }
  }

  datatype SaveError =
    | ElementsCount(count: nat)
    | GeneralSerialization(cause: Json.JsonError)
    | OperationSerialization(cause: Json.JsonError)

  datatype GetError = TableDoesNotExist | Decoding(cause: BinaryEncoding.DecodeError)

  datatype CheckError = TooMuchEnqueued(total: nat, threshold: nat)

  const U32: nat := 0x1_0000_0000
  const U64: nat := 0x1_0000_0000_0000_0000

  /** The tables on disk; a table does not exist before the first transaction that writes to it. */
  datatype Store = Store(
    serials: map<bytes, u32>,
    sheets: Option<map<PartId, bytes>>,
    counter: Option<u64>,
    general: Option<map<nat, Line>>,
    operation: Option<map<nat, Line>>)
  {
    /** The rows of a queue; a missing table is an empty one. */
    function Queue(q: QueueTable): map<nat, Line> {
      var table := if q.General? then general else operation;
      match table
      case None => map[]
      case Some(rows) => rows
    }

    function WithQueue(q: QueueTable, rows: map<nat, Line>): Store {
      match q
      case General => this.(general := Some(rows))
      case Operation => this.(operation := Some(rows))
    }

    function Backlog(): nat {
      |Queue(General)| + |Queue(Operation)|
    }
  }

  const EMPTY_STORE: Store := Store(map[], None, None, None, None)

  // ---------------------------------------------------------------------------
  // Transactions
  // ---------------------------------------------------------------------------

  /** The serial number a date gets next, in 32-bit wrapping arithmetic. */
  function NextSerial(store: Store, date: Date): u32 {
    var key := DateKey(date);
    if key in store.serials then (store.serials[key] + 1) % U32 else 1
  }

  function SerialTaken(store: Store, date: Date): Store {
    store.(serials := store.serials[DateKey(date) := NextSerial(store, date)])
  }

  /** The general sheet last saved for a part, as decoded from its cached form. */
  function GetGeneralPartSheet(store: Store, part: PartId): Result<Option<seq<CachedItem>>, GetError> {
    match store.sheets
    case None => Err(TableDoesNotExist)
    case Some(table) =>
      if part !in table then Ok(None)
      else
        match DecodeCached(table[part])
        case Err(e) => Err(Decoding(e))
        case Ok(items) => Ok(Some(items))
  }

  /** The sequence number a save takes, the first of two, in 64-bit wrapping arithmetic. */
  function NextSequence(counter: Option<u64>): u64 {
    match counter
    case None => 0
    case Some(v) => (v + 2) % U64
  }

  /** The archive row of one of the sheets of a save. */
  function RowOf(fmt: Json.FloatFormat, save: Save, q: QueueTable): Result<Line, Json.JsonError> {
    EncodeForArchive(fmt, save.savedAt, save.machine, save.part, save.Sheet(q))
  }

  function Insert<K, V>(table: Option<map<K, V>>, key: K, value: V): Option<map<K, V>> {
    Some((if table.Some? then table.value else map[])[key := value])
  }

  /** The general sheet replaces the cached one; both rows are queued, under two new keys. */
  function Enqueued(store: Store, part: PartId, cached: bytes, general: Line, operation: Line): Store {
    var sequence := NextSequence(store.counter);
    Store(store.serials,
          Insert(store.sheets, part, cached),
          Some(sequence),
          Insert(store.general, sequence, general),
          Insert(store.operation, (sequence + 1) % U64, operation))
  }

  /** The store after a save, or the reason why nothing is written. */
  function Saved(fmt: Json.FloatFormat, store: Store, save: Save): Result<Store, SaveError> {
    var cached :- EncodeForCache(save.general).MapErr(n => ElementsCount(n));
    var general :- RowOf(fmt, save, General).MapErr(e => GeneralSerialization(e));
    var operation :- RowOf(fmt, save, Operation).MapErr(e => OperationSerialization(e));
    Ok(Enqueued(store, save.part, cached, general, operation))
  }

  /** Refused when both queues together hold as many rows as the threshold. */
  function CheckEnqueuing(store: Store, threshold: nat): Result<(), CheckError> {
    if store.Backlog() >= threshold then Err(TooMuchEnqueued(store.Backlog(), threshold)) else Ok(())
  }

  /** The keys of a queue in order, and the body its rows make. */
  function QueueBatch(store: Store, q: QueueTable): (seq<nat>, bytes) {
    var table := store.Queue(q);
    var keys := SortedKeys(table.Keys);
    (keys, Unlines(RowsAt(table, keys)))
  }

  function KeySet(keys: seq<nat>): set<nat> {
    set k | k in keys
  }

  /** The store after removing queued rows by key; unknown keys are ignored. */
  function Removed(store: Store, q: QueueTable, keys: seq<nat>): Store {
    store.WithQueue(q, store.Queue(q) - KeySet(keys))
  }

  // ---------------------------------------------------------------------------
  // The cache object
  // ---------------------------------------------------------------------------

  /** Each method is one transaction: serialised with the others, atomic, and durable. */
  class TraceabilityCache {
    const queuesThreshold: nat
    const floatFormat: Json.FloatFormat

    var serials: map<bytes, u32>
    var sheets: Option<map<PartId, bytes>>
    var counter: Option<u64>
    var generalQueue: Option<map<nat, Line>>
    var operationQueue: Option<map<nat, Line>>

    /** The content of the tables. */
    function State(): Store
      reads this
    {
      Store(serials, sheets, counter, generalQueue, operationQueue)
    }

    constructor (store: Store, queuesThreshold: nat, floatFormat: Json.FloatFormat)
      ensures State() == store && this.queuesThreshold == queuesThreshold && this.floatFormat == floatFormat
    {
      this.queuesThreshold := queuesThreshold;
      this.floatFormat := floatFormat;
      serials, sheets, counter := store.serials, store.sheets, store.counter;
      generalQueue, operationQueue := store.general, store.operation;
    }

    /** What anybody else does to the cache while a handler waits. */
    method Meanwhile(others: Store -> Store)
      modifies this
      ensures State() == others(old(State()))
    {
      var store := others(State());
      serials, sheets, counter := store.serials, store.sheets, store.counter;
      generalQueue, operationQueue := store.general, store.operation;
    }

    method TakeSerial(date: Date) returns (serial: u32)
      modifies this`serials
      ensures serial == NextSerial(old(State()), date)
      ensures State() == SerialTaken(old(State()), date)
    {
      var key := DateKey(date);
      serial := if key in serials then (serials[key] + 1) % U32 else 1;
      serials := serials[key := serial];
    }

    method GetSheet(part: PartId) returns (r: Result<Option<seq<CachedItem>>, GetError>)
      ensures r == GetGeneralPartSheet(State(), part)
    {
      if sheets.None? {
        return Err(TableDoesNotExist);
      }
      if part !in sheets.value {
        return Ok(None);
      }
      var decoded := DecodeCachedPartSheet(sheets.value[part]);
      return if decoded.Err? then Err(Decoding(decoded.error)) else Ok(Some(decoded.value));
    }

    /** The write transaction of a save: bumps the counter, then inserts. */
    method Enqueue(part: PartId, cached: bytes, general: Line, operation: Line)
      modifies this`counter, this`sheets, this`generalQueue, this`operationQueue
      ensures State() == Enqueued(old(State()), part, cached, general, operation)
    {
      var sequence: u64 := 0;
      if counter.Some? {
        sequence := (counter.value + 2) % U64;
      }
      counter := Some(sequence);
      sheets := Insert(sheets, part, cached);
      generalQueue := Insert(generalQueue, sequence, general);
      operationQueue := Insert(operationQueue, (sequence + 1) % U64, operation);
    }

    method SavePartSheets(save: Save) returns (r: Result<(), SaveError>)
      modifies this`counter, this`sheets, this`generalQueue, this`operationQueue
      ensures r.Ok? <==> Saved(floatFormat, old(State()), save).Ok?
      ensures r.Ok? ==> State() == Saved(floatFormat, old(State()), save).value
      ensures r.Err? ==> Saved(floatFormat, old(State()), save) == Err(r.error) && State() == old(State())
    {
      var encoded, _ := EncodePartSheetForCache(save.general);
      if encoded.Err? {
        return Err(ElementsCount(encoded.error));
      }
      var general := RowOf(floatFormat, save, General);
      if general.Err? {
        return Err(GeneralSerialization(general.error));
      }
      var operation := RowOf(floatFormat, save, Operation);
      if operation.Err? {
        return Err(OperationSerialization(operation.error));
      }
      Enqueue(save.part, encoded.value, general.value, operation.value);
      return Ok(());
    }

    method CheckEnqueuingAllowed() returns (r: Result<(), CheckError>)
      ensures r == CheckEnqueuing(State(), queuesThreshold)
    {
      var total := 0;
      var tables := [generalQueue, operationQueue];
      for i := 0 to |tables|
        invariant total == (if i > 0 then |State().Queue(General)| else 0)
                           + (if i > 1 then |State().Queue(Operation)| else 0)
      {
        if tables[i].None? {
          continue;
        }
        total := total + |tables[i].value|;
      }
      if total >= queuesThreshold {
        return Err(TooMuchEnqueued(total, queuesThreshold));
      }
      return Ok(());
    }

    method GetQueueBatch(q: QueueTable) returns (keys: seq<nat>, body: bytes)
      ensures (keys, body) == QueueBatch(State(), q)
    {
      keys, body := [], [];
      var table := State().Queue(q);
      var unread := table.Keys;
      while unread != {}
        invariant unread <= table.Keys
        invariant keys + SortedKeys(unread) == SortedKeys(table.Keys)
        invariant forall k :: k in keys ==> k in table
        invariant body == Unlines(RowsAt(table, keys))
        decreases unread
      {
        var k := Min(unread);
        OneMoreRow(table, keys, k);
        KeyByKey(keys, unread);
        keys := keys + [k];
        body := body + table[k];
        body := body + [NEWLINE];
        unread := unread - {k};
      }
      assert keys + [] == keys;
    }

    method RemoveEntries(q: QueueTable, keys: seq<nat>)
      modifies this`generalQueue, this`operationQueue
      ensures State() == Removed(old(State()), q, keys)
    {
      var table := State().Queue(q);
      for i := 0 to |keys|
        invariant table == State().Queue(q) - KeySet(keys[..i])
      {
        assert KeySet(keys[..i + 1]) == KeySet(keys[..i]) + {keys[i]};
        table := table - {keys[i]};
      }
      assert keys[..|keys|] == keys;
      if q.General? {
        generalQueue := Some(table);
      } else {
        operationQueue := Some(table);
      }
    }
  }
}
