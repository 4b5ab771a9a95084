/** The stream-event side of the outbox table: staging, flushing, cursor reads and pruning. */
module StreamStore {
  import opened Wrappers
  import opened Sets
  import opened StreamLog
  import R = StreamReplay
  import V = StreamRouting
  import W = StreamWrites
  import P = StreamLogProofs

  datatype StreamError = InvalidInput

  /** Every id in use was drawn from the sequence. */
  ghost predicate Drawn(log: Log) {
    && 1 <= log.nextId
    && (forall id :: id in log.rows ==> 1 <= id < log.nextId && log.rows[id].id == id)
    && forall t :: t in log.txs ==> DrawnBy(log.txs[t].inserted, log.nextId)
  }

  ghost predicate DrawnBy(events: seq<StreamEvent>, nextId: int) {
    forall i :: 0 <= i < |events| ==> 1 <= events[i].id < nextId
  }

  /** The row that transaction `t` finds under `key`: a visible one or one of its own. */
  ghost predicate Finds(log: Log, t: int, id: int, key: string) {
    || (id in log.rows && log.rows[id].key == key)
    || (t in log.txs && exists i :: 0 <= i < |log.txs[t].inserted| && log.txs[t].inserted[i].id == id
                                    && log.txs[t].inserted[i].key == key)
  }

  function StagedWith(log: Log, t: int, drafts: seq<Draft>): Log
    requires t in log.txs
  {
    FlushStaged(StageAll(log, t, drafts).(holder := Some(t)), t)
  }

  lemma InsertOneDraws(log: Log, t: int, draft: Draft)
    requires Drawn(log) && t in log.txs
    ensures Drawn(InsertOne(log, t, draft))
    ensures InsertOne(log, t, draft).rows == log.rows
    ensures InsertOne(log, t, draft).txs.Keys == log.txs.Keys
    ensures forall id, key | Finds(log, t, id, key) :: Finds(InsertOne(log, t, draft), t, id, key)
    ensures InsertOne(log, t, draft).txs != log.txs ==> Finds(InsertOne(log, t, draft), t, log.nextId, draft.key)
    ensures InsertOne(log, t, draft).txs == log.txs ==> exists id :: Finds(log, t, id, draft.key)
  {
    var inserted := log.txs[t].inserted;
    if HasRow(log.rows, draft.key) {
      var id :| id in log.rows && log.rows[id].key == draft.key;
      assert Finds(log, t, id, draft.key);
    } else if HasInserted(inserted, draft.key) {
      var i :| 0 <= i < |inserted| && inserted[i].key == draft.key;
      assert Finds(log, t, inserted[i].id, draft.key);
    } else {
      var event := StreamEvent(log.nextId, draft.key, draft.payload, log.clock);
      var next := InsertOne(log, t, draft);
      assert next.txs[t].inserted == inserted + [event];
      assert next.txs[t].inserted[|inserted|] == event;
      assert forall i | 0 <= i < |inserted| :: next.txs[t].inserted[i] == inserted[i];
    }
  }

  lemma {:induction false} StagingGrows(log: Log, t: int, drafts: seq<Draft>)
    requires t in log.txs && log.txs[t].staged != []
    ensures StageAll(log, t, drafts).txs[t].staged != []
    decreases |drafts|
  {
    if drafts != [] { StagingGrows(log, t, drafts[..|drafts| - 1]); }
  }

  lemma {:induction false} AddedKeys(rows: map<int, StreamEvent>, events: seq<StreamEvent>, nextId: int)
    requires DrawnBy(events, nextId) && forall id :: id in rows ==> 1 <= id < nextId && rows[id].id == id
    ensures forall id | id in AddRows(rows, events) :: 1 <= id < nextId && AddRows(rows, events)[id].id == id
    decreases |events|
  {
    if events != [] { AddedKeys(rows, events[..|events| - 1], nextId); }
  }

  /** `ids` lists the visible rows between the cursor and `id`. */
  ghost predicate Scanned(rows: map<int, StreamEvent>, cursor: int, id: int, ids: seq<int>) {
    && Ascending(ids)
    && (forall i :: 0 <= i < |ids| ==> ids[i] in rows && cursor < ids[i] < id)
    && (forall k :: k in rows && cursor < k < id ==> k in ids)
  }

  lemma IdsPush(batch: seq<StreamEvent>, event: StreamEvent)
    ensures Ids(batch + [event]) == Ids(batch) + [event.id]
  {
  }

  lemma ScanMiss(rows: map<int, StreamEvent>, cursor: int, id: int, ids: seq<int>)
    requires cursor < id && Scanned(rows, cursor, id, ids) && id !in rows
    ensures Scanned(rows, cursor, id + 1, ids)
  {
  }

  lemma ScanFind(rows: map<int, StreamEvent>, cursor: int, id: int, ids: seq<int>)
    requires cursor < id && Scanned(rows, cursor, id, ids) && id in rows
    ensures Scanned(rows, cursor, id + 1, ids + [id])
  {
    var longer := ids + [id];
    forall k | k in rows && cursor < k < id + 1 ensures k in longer {
      if k < id { assert k in ids; } else { assert longer[|ids|] == k; }
    }
  }

  /** A scan that filled its limit, or passed the last row, is a batch. */
  lemma ScanDone(rows: map<int, StreamEvent>, cursor: int, id: int, limit: int, ids: seq<int>)
    requires cursor < id && Scanned(rows, cursor, id, ids) && |ids| <= limit
    requires |ids| == limit || forall k :: k in rows ==> k < id
    ensures IsBatch(rows, cursor, limit, ids)
  {
  }

  /** `batch` holds the visible rows between the cursor and `id`. */
  ghost predicate Collected(rows: map<int, StreamEvent>, cursor: int, id: int, batch: seq<StreamEvent>) {
    && Scanned(rows, cursor, id, Ids(batch))
    && forall i :: 0 <= i < |batch| ==> batch[i].id in rows && rows[batch[i].id] == batch[i]
  }

  function Collect(rows: map<int, StreamEvent>, id: int, batch: seq<StreamEvent>): seq<StreamEvent> {
    if id in rows then batch + [rows[id]] else batch
  }

  lemma CollectStep(rows: map<int, StreamEvent>, cursor: int, id: int, batch: seq<StreamEvent>)
    requires cursor < id && Collected(rows, cursor, id, batch)
    requires id in rows ==> rows[id].id == id
    ensures Collected(rows, cursor, id + 1, Collect(rows, id, batch))
  {
    var longer := Collect(rows, id, batch);
    if id in rows {
      IdsPush(batch, rows[id]);
      ScanFind(rows, cursor, id, Ids(batch));
    } else {
      ScanMiss(rows, cursor, id, Ids(batch));
    }
    forall i | 0 <= i < |longer| ensures longer[i].id in rows && rows[longer[i].id] == longer[i] {
      if i < |batch| { assert longer[i] == batch[i]; }
    }
  }

  lemma CollectedAll(rows: map<int, StreamEvent>, nextId: int, log: seq<StreamEvent>)
    requires forall id :: id in rows ==> 1 <= id < nextId && rows[id].id == id
    requires Collected(rows, 0, nextId, log)
    ensures V.Lists(rows, log)
  {
    assert forall i, j :: 0 <= i < j < |log| ==> Ids(log)[i] < Ids(log)[j];
    forall e: StreamEvent | e.id in rows && rows[e.id] == e ensures e in log {
      assert e.id in Ids(log);
      var i :| 0 <= i < |log| && Ids(log)[i] == e.id;
      assert log[i] == e;
    }
  }

  function Above(rows: map<int, StreamEvent>, threshold: int): map<int, StreamEvent> {
    map id | id in rows && id > threshold :: rows[id]
  }

  lemma CutIsNewest(rows: map<int, StreamEvent>, threshold: int, maxEvents: int)
    requires forall id :: id in rows ==> (id > threshold <==> id in NewestRows(rows, maxEvents))
    ensures Above(rows, threshold) == NewestRows(rows, maxEvents)
  {
  }

  lemma PruneForm(log: Log, maxAge: int, maxEvents: int, recent: map<int, StreamEvent>)
    requires recent == RecentRows(log.rows, log.clock - maxAge)
    ensures PrunedRows(log, maxAge, maxEvents) == NewestRows(recent, maxEvents)
  {
  }

  lemma NewerStep(rows: map<int, StreamEvent>, id: int)
    ensures Newer(rows, id - 1) == if id in rows then Newer(rows, id) + {id} else Newer(rows, id)
  {
  }

  /** The id at the given offset from the newest is the newest row the count bound drops. */
  lemma OffsetCuts(rows: map<int, StreamEvent>, maxEvents: int, cut: int, id: int)
    requires cut in rows && |Newer(rows, cut)| == maxEvents && id in rows
    ensures id <= cut <==> |Newer(rows, id)| >= maxEvents
  {
    if id <= cut { SubsetSize(Newer(rows, cut), Newer(rows, id)); }
    else { SubsetSize(Newer(rows, id) + {id}, Newer(rows, cut)); }
  }

  lemma NothingCut(rows: map<int, StreamEvent>, maxEvents: int)
    requires |Newer(rows, 0)| <= maxEvents && forall id :: id in rows ==> 1 <= id
    ensures NewestRows(rows, maxEvents) == rows
  {
    forall id | id in rows ensures |Newer(rows, id)| < maxEvents {
      SubsetSize(Newer(rows, id) + {id}, Newer(rows, 0));
    }
  }

  class Store {
    var rows: map<int, StreamEvent>
    var nextId: int
    var holder: Option<int>
    var txs: map<int, Tx>
    var clock: int

    ghost function State(): Log
      reads this
    {
      Log(rows, nextId, holder, txs, clock)
    }

    ghost predicate Valid()
      reads this
    {
      Drawn(State())
    }

    constructor (now: int)
      ensures Valid() && State() == Log(map[], 1, None, map[], now)
    {
      rows, nextId, holder, txs, clock := map[], 1, None, map[], now;
    }

    // ------------------------------------------------------------- writing

    method Stage(t: int, drafts: seq<Draft>)
      requires Valid() && t in txs
      modifies this`nextId, this`txs
      ensures Valid() && t in txs
      ensures State() == StageAll(old(State()), t, drafts)
      ensures exists places :: W.StagedFrom(old(txs[t].staged), drafts, txs[t].staged, places)
    {
      hide W.StagedFrom;
      assert drafts[..0] == [];
      for i := 0 to |drafts|
        invariant Valid() && t in txs
        invariant State() == StageAll(old(State()), t, drafts[..i])
      {
        assert drafts[..i + 1][..i] == drafts[..i];
        var tx := txs[t];
        if !HasDraft(tx.staged, drafts[i].key) {
          txs := txs[t := tx.(staged := tx.staged + [drafts[i]])];
        }
        nextId := nextId + 1;
        assert State() == StageOne(StageAll(old(State()), t, drafts[..i]), t, drafts[i]);
      }
      assert drafts[..|drafts|] == drafts;
      ghost var places := W.StagingKeepsFirsts(old(State()), t, drafts);
    }

    /** One insert; on a key conflict the id of the row that is already there. */
    method Insert(t: int, draft: Draft) returns (id: int)
      requires Valid() && t in txs
      modifies this`nextId, this`txs
      ensures Valid() && t in txs
      ensures State() == InsertOne(old(State()), t, draft)
      ensures Finds(State(), t, id, draft.key)
      ensures (forall other :: !Finds(old(State()), t, other, draft.key)) ==>
                id == old(nextId)
                && txs == old(txs)[t := old(txs[t]).(inserted := old(txs[t].inserted) + [StreamEvent(id, draft.key, draft.payload, clock)])]
      ensures Finds(old(State()), t, id, draft.key) ==> txs == old(txs)
    {
      InsertOneDraws(State(), t, draft);
      var tx := txs[t];
      if HasRow(rows, draft.key) || HasInserted(tx.inserted, draft.key) {
        id :| id in (set r | r in rows :: r) + (set e | e in tx.inserted :: e.id)
          && ((id in rows && rows[id].key == draft.key)
              || exists i :: 0 <= i < |tx.inserted| && tx.inserted[i].id == id && tx.inserted[i].key == draft.key);
      } else {
        id := nextId;
        var event := StreamEvent(nextId, draft.key, draft.payload, clock);
        txs := txs[t := tx.(inserted := tx.inserted + [event])];
      }
      nextId := nextId + 1;
      assert State() == InsertOne(old(State()), t, draft);
    }

    /** The order lock is taken before the first stream insert and kept until the transaction ends. */
    method FlushStagedEvents(t: int, drafts: seq<Draft>)
      requires Valid() && t in txs && (holder == None || holder == Some(t))
      modifies this`nextId, this`txs, this`holder
      ensures Valid() && t in txs
      ensures State() == if StageAll(old(State()), t, drafts).txs[t].staged == [] then StageAll(old(State()), t, drafts)
                         else StagedWith(old(State()), t, drafts)
    {
      Stage(t, drafts);
      if txs[t].staged == [] { return; }
      holder := Some(t);
      ghost var locked := State();
      var _ := InsertEvents(t, txs[t].staged);
      txs := txs[t := txs[t].(staged := [])];
      assert State() == FlushStaged(locked, t);
    }

    method InsertEvents(t: int, drafts: seq<Draft>) returns (ids: seq<int>)
      requires Valid() && t in txs
      modifies this`nextId, this`txs
      ensures Valid() && t in txs
      ensures State() == InsertAll(old(State()), t, drafts)
      ensures |ids| == |drafts| && forall i :: 0 <= i < |ids| ==> Finds(State(), t, ids[i], drafts[i].key)
    {
      hide Finds, Drawn, InsertOne;
      ids := [];
      assert drafts[..0] == [];
      for i := 0 to |drafts|
        invariant Valid() && t in txs && |ids| == i
        invariant State() == InsertAll(old(State()), t, drafts[..i])
        invariant forall k :: 0 <= k < i ==> Finds(State(), t, ids[k], drafts[k].key)
      {
        assert drafts[..i + 1][..i] == drafts[..i];
        ghost var before := State();
        InsertOneDraws(before, t, drafts[i]);
        var id := Insert(t, drafts[i]);
        assert State() == InsertOne(before, t, drafts[i]);
        ids := ids + [id];
      }
      assert drafts[..|drafts|] == drafts;
    }

    /** Direct inserts unless something is staged; only then do the ids come back. */
    method Flush(t: int, drafts: seq<Draft>) returns (ids: seq<int>)
      requires Valid() && t in txs && (holder == None || holder == Some(t))
      modifies this`nextId, this`txs, this`holder
      ensures Valid() && t in txs
      ensures old(txs[t].staged) != [] ==> State() == StagedWith(old(State()), t, drafts) && ids == []
      ensures old(txs[t].staged) == [] && drafts == [] ==> State() == old(State()) && ids == []
      ensures old(txs[t].staged) == [] && drafts != [] ==>
                && State() == InsertAll(old(State()).(holder := Some(t)), t, drafts)
                && |ids| == |drafts|
                && forall i :: 0 <= i < |ids| ==> Finds(State(), t, ids[i], drafts[i].key)
    {
      ids := [];
      if txs[t].staged != [] {
        StagingGrows(State(), t, drafts);
        FlushStagedEvents(t, drafts);
        return;
      }
      if drafts == [] { return; }
      holder := Some(t);
      ids := InsertEvents(t, drafts);
    }

    /** Commit: the rows become visible together and the lock is released. */
    method Commit(t: int)
      requires Valid() && t in txs
      modifies this`rows, this`txs, this`holder
      ensures Valid()
      ensures State() == Released(old(State()), t).(rows := AddRows(old(rows), old(txs[t].inserted)))
      ensures txs == old(txs) - {t} && holder != Some(t) && (old(holder) != Some(t) ==> holder == old(holder))
      ensures forall id :: id in rows ==> rows[id] in old(txs[t].inserted) || (id in old(rows) && rows[id] == old(rows)[id])
      ensures old(rows).Keys <= rows.Keys && forall i :: 0 <= i < |old(txs[t].inserted)| ==> old(txs[t].inserted)[i].id in rows
    {
      var inserted := txs[t].inserted;
      AddedKeys(rows, inserted, nextId);
      P.AddedRows(rows, inserted);
      ghost var before := rows;
      assert inserted[..0] == [];
      for i := 0 to |inserted|
        invariant rows == AddRows(before, inserted[..i]) && State() == old(State()).(rows := rows)
      {
        assert inserted[..i + 1][..i] == inserted[..i];
        rows := rows[inserted[i].id := inserted[i]];
      }
      assert inserted[..|inserted|] == inserted;
      txs := txs - {t};
      if holder == Some(t) { holder := None; }
    }

    // ------------------------------------------------------------- reading

    method Cursor() returns (cursor: int)
      requires Valid()
      ensures IsCursor(rows, cursor)
    {
      cursor := nextId - 1;
      while cursor > 0 && cursor !in rows
        invariant 0 <= cursor < nextId
        invariant forall id :: id in rows ==> id <= cursor
      {
        cursor := cursor - 1;
      }
      assert cursor == 0 ==> forall id :: id !in rows;
    }

    method ReadAfter(cursor: int, limit: int) returns (r: Result<seq<StreamEvent>, StreamError>)
      requires Valid()
      ensures r.Err? <==> cursor < 0 || limit <= 0
      ensures r.Ok? ==> IsBatch(rows, cursor, limit, Ids(r.value))
      ensures r.Ok? ==> forall i :: 0 <= i < |r.value| ==> r.value[i].id in rows && rows[r.value[i].id] == r.value[i]
    {
      if cursor < 0 || limit <= 0 { return Err(InvalidInput); }
      var batch := [];
      var id := cursor + 1;
      while id < nextId && |batch| < limit
        invariant cursor < id && |batch| <= limit && Collected(rows, cursor, id, batch)
        decreases nextId - id
      {
        CollectStep(rows, cursor, id, batch);
        batch := Collect(rows, id, batch);
        id := id + 1;
      }
      ScanDone(rows, cursor, id, limit, Ids(batch));
      return Ok(batch);
    }

    /** The replay query of a new timeline subscription, over all visible rows. */
    method Replay(q: R.Query) returns (r: Result<seq<StreamEvent>, R.ReplayError>)
      requires Valid()
      ensures exists log :: V.Lists(rows, log) && r == R.ReplayForSubscription(log, q)
      ensures r.Err? <==> q.through < 0 || q.createAfter < 0 || q.account <= 0 || q.stream.User?
                          || q.stream.UserNotification? || q.stream.Direct?
      ensures r.Ok? ==> R.Increasing(r.value) && forall e :: e in r.value <==> V.InReplay(rows, q, e)
    {
      var log := [];
      for id := 1 to nextId
        invariant Collected(rows, 0, id, log)
      {
        CollectStep(rows, 0, id, log);
        log := Collect(rows, id, log);
      }
      CollectedAll(rows, nextId, log);
      R.ReplayIsOrdered(log, q);
      forall e ensures e in R.Replay(log, q) <==> V.InReplay(rows, q, e) { V.ReplayHolds(rows, log, q, e); }
      return R.ReplayForSubscription(log, q);
    }

    // ------------------------------------------------------------- pruning

    method Prune(maxAge: int, maxEvents: int) returns (r: Result<int, StreamError>)
      requires Valid()
      modifies this`rows
      ensures Valid()
      ensures r.Err? <==> maxAge <= 0 || maxEvents <= 0
      ensures r.Err? ==> State() == old(State())
      ensures r.Ok? ==>
                && State() == old(State()).(rows := PrunedRows(old(State()), maxAge, maxEvents))
                && IsPruneCursor(rows, r.value)
      // In the rows' own fields: only rows within the age stay, at most the bound, and of those within
      // the age one goes only when the bound is reached by newer ones.
      ensures r.Ok? ==> |rows| <= maxEvents && forall id :: id in rows ==>
                id in old(rows) && rows[id] == old(rows)[id] && rows[id].createdAt >= clock - maxAge
      ensures r.Ok? ==> forall id :: id in old(rows) && id !in rows && old(rows)[id].createdAt >= clock - maxAge ==>
                |rows| == maxEvents && forall kept :: kept in rows ==> id < kept
    {
      if maxAge <= 0 || maxEvents <= 0 { return Err(InvalidInput); }
      ghost var log := State();
      P.PruneKeepsNewest(log, maxAge, maxEvents);
      rows := RecentRows(rows, clock - maxAge);
      ghost var recent := rows;
      var threshold := Offset(maxEvents);
      CutIsNewest(recent, threshold, maxEvents);
      rows := Above(rows, threshold);
      assert rows == NewestRows(recent, maxEvents);
      PruneForm(log, maxAge, maxEvents, recent);
      var cursor := PruneCursor();
      return Ok(cursor);
    }

    method PruneCursor() returns (cursor: int)
      requires Valid()
      ensures IsPruneCursor(rows, cursor)
    {
      cursor := 0;
      while cursor + 1 < nextId && cursor + 1 !in rows
        invariant 0 <= cursor < nextId
        invariant forall id :: id in rows ==> cursor < id
      {
        cursor := cursor + 1;
      }
      if cursor + 1 == nextId { assert rows == map[]; return 0; }
    }

    /** The id `maxEvents` places below the newest row, or -1 when there are not that many rows. */
    method Offset(maxEvents: int) returns (threshold: int)
      requires Valid() && maxEvents > 0
      ensures forall id :: id in rows ==> (id > threshold <==> id in NewestRows(rows, maxEvents))
    {
      var id, seen := nextId - 1, 0;
      assert Newer(rows, id) == {};
      while id > 0
        invariant 0 <= id < nextId && seen == |Newer(rows, id)| <= maxEvents
      {
        if id in rows {
          if seen == maxEvents {
            forall other | other in rows ensures other > id <==> other in NewestRows(rows, maxEvents) {
              OffsetCuts(rows, maxEvents, id, other);
            }
            return id;
          }
          seen := seen + 1;
        }
        NewerStep(rows, id);
        id := id - 1;
      }
      NothingCut(rows, maxEvents);
      return -1;
    }
  }
}
