/**
 The stream-event log inside `outbox_events` (src/jobs.rs): transactions draw ids from a shared
 sequence long before their rows become visible, and an advisory lock held from before a
 transaction's first stream insert until it ends keeps visibility in id order.
 */
module StreamLog {
  import opened Wrappers
  import opened Sets

  /** Routing facts of a status before or after an event. */
  datatype Snapshot = Snapshot(
    isPublic: bool,
    hashtag: bool,
    local: bool,
    hadMedia: bool,
    tags: set<string>,
    lists: set<(int, int)>)

  datatype Payload = Payload(
    accountId: int,
    event: string,
    objectId: int,
    before: Option<Snapshot>,
    after: Option<Snapshot>)

  /** A pending event of one transaction. */
  datatype Draft = Draft(key: string, payload: Payload)

  datatype StreamEvent = StreamEvent(id: int, key: string, payload: Payload, createdAt: int)

  /** What a transaction has done but not committed. */
  datatype Tx = Tx(staged: seq<Draft>, inserted: seq<StreamEvent>)

  datatype Log = Log(
    rows: map<int, StreamEvent>,
    nextId: int,
    holder: Option<int>,
    txs: map<int, Tx>,
    clock: int)

  predicate HasDraft(staged: seq<Draft>, key: string) {
    exists i :: 0 <= i < |staged| && staged[i].key == key
  }

  predicate HasInserted(inserted: seq<StreamEvent>, key: string) {
    exists i :: 0 <= i < |inserted| && inserted[i].key == key
  }

  predicate HasRow(rows: map<int, StreamEvent>, key: string) {
    exists id :: id in rows && rows[id].key == key
  }

  /** One staging insert: it takes an id and keeps only the first draft of a key. */
  function StageOne(log: Log, t: int, draft: Draft): Log
    requires t in log.txs
  {
    var tx := log.txs[t];
    var staged := if HasDraft(tx.staged, draft.key) then tx.staged else tx.staged + [draft];
    log.(nextId := log.nextId + 1, txs := log.txs[t := tx.(staged := staged)])
  }

  function StageAll(log: Log, t: int, drafts: seq<Draft>): (r: Log)
    requires t in log.txs
    ensures t in r.txs
    decreases |drafts|
  {
    if drafts == [] then log
    else StageOne(StageAll(log, t, drafts[..|drafts| - 1]), t, drafts[|drafts| - 1])
  }

  /** One stream insert: a key that is already in the log only uses up an id. */
  function InsertOne(log: Log, t: int, draft: Draft): Log
    requires t in log.txs
  {
    var tx := log.txs[t];
    if HasRow(log.rows, draft.key) || HasInserted(tx.inserted, draft.key) then log.(nextId := log.nextId + 1)
    else
      var event := StreamEvent(log.nextId, draft.key, draft.payload, log.clock);
      log.(nextId := log.nextId + 1, txs := log.txs[t := tx.(inserted := tx.inserted + [event])])
  }

  function InsertAll(log: Log, t: int, drafts: seq<Draft>): (r: Log)
    requires t in log.txs
    ensures t in r.txs
    decreases |drafts|
  {
    if drafts == [] then log
    else InsertOne(InsertAll(log, t, drafts[..|drafts| - 1]), t, drafts[|drafts| - 1])
  }

  /** The terminal flush of staged drafts, in staging order; staging is empty afterwards. */
  function FlushStaged(log: Log, t: int): Log
    requires t in log.txs
  {
    var flushed := InsertAll(log, t, log.txs[t].staged);
    flushed.(txs := flushed.txs[t := flushed.txs[t].(staged := [])])
  }

  /** Rows become visible all at once, when their transaction commits. */
  function AddRows(rows: map<int, StreamEvent>, events: seq<StreamEvent>): map<int, StreamEvent>
    decreases |events|
  {
    if events == [] then rows
    else
      var last := events[|events| - 1];
      AddRows(rows, events[..|events| - 1])[last.id := last]
  }

  function Ids(events: seq<StreamEvent>): (ids: seq<int>)
    ensures |ids| == |events|
    ensures forall i | 0 <= i < |ids| :: ids[i] == events[i].id
  {
    if events == [] then [] else Ids(events[..|events| - 1]) + [events[|events| - 1].id]
  }

  /** The advisory lock belongs to the transaction and ends with it. */
  function Released(log: Log, t: int): Log {
    log.(holder := if log.holder == Some(t) then None else log.holder, txs := log.txs - {t})
  }

  // ---------------------------------------------------------------- reading

  /** What a cursor read returns: the `limit` smallest visible ids after the cursor. */
  ghost predicate IsBatch(rows: map<int, StreamEvent>, cursor: int, limit: int, batch: seq<int>) {
    && |batch| <= limit
    && Ascending(batch)
    && (forall i :: 0 <= i < |batch| ==> batch[i] in rows && cursor < batch[i])
    && (forall id :: id in rows && cursor < id && id !in batch ==>
          |batch| == limit && forall i :: 0 <= i < |batch| ==> batch[i] < id)
  }

  ghost predicate IsCursor(rows: map<int, StreamEvent>, cursor: int) {
    if rows == map[] then cursor == 0
    else cursor in rows && forall id :: id in rows ==> id <= cursor
  }

  // ---------------------------------------------------------------- pruning

  function RecentRows(rows: map<int, StreamEvent>, horizon: int): map<int, StreamEvent> {
    map id | id in rows && rows[id].createdAt >= horizon :: rows[id]
  }

  function Newer(rows: map<int, StreamEvent>, id: int): set<int> {
    set other | other in rows && id < other
  }

  /** Keep the newest `maxEvents` rows. */
  function NewestRows(rows: map<int, StreamEvent>, maxEvents: int): map<int, StreamEvent> {
    map id | id in rows && |Newer(rows, id)| < maxEvents :: rows[id]
  }

  function PrunedRows(log: Log, maxAge: int, maxEvents: int): map<int, StreamEvent> {
    NewestRows(RecentRows(log.rows, log.clock - maxAge), maxEvents)
  }

  /** The cursor just before the oldest kept row, or zero. */
  ghost predicate IsPruneCursor(rows: map<int, StreamEvent>, cursor: int) {
    if rows == map[] then cursor == 0
    else cursor + 1 in rows && forall id :: id in rows ==> cursor < id
  }
}
