/** The log over whole runs: visibility order, lossless readers, and pruning. */
module StreamLogProofs {
  import opened Wrappers
  import opened Sets
  import opened StreamLog

  datatype Step =
    | Tick(elapsed: nat)
    | AllocateElsewhere
    | Begin(t: int)
    | Stage(t: int, draft: Draft)
    | Lock(t: int)
    | Insert(t: int, draft: Draft)
    | FlushAll(t: int)
    | Commit(t: int)
    | Abort(t: int)
    | Prune(maxAge: int, maxEvents: int)
    | Subscribe(cursor: int)
    | Poll(limit: int, batch: seq<int>)

  /** A reader's cursor, what it was handed, and where in the history it began. A run follows one
      reader, which starts anew with each subscription; readers do not affect the log. */
  datatype Reader = Reader(base: nat, cursor: int, delivered: seq<StreamEvent>) {
    function Position(): nat { base + |delivered| }
  }

  /** `history` lists every stream event ever committed, in the order commits made them visible. */
  datatype Sys = Sys(log: Log, history: seq<StreamEvent>, reader: Reader)

  ghost predicate Enabled(sys: Sys, step: Step) {
    match step
    case Tick(_) => true
    case AllocateElsewhere => true
    case Begin(t) => t !in sys.log.txs
    case Stage(t, _) => t in sys.log.txs
    case Lock(t) => t in sys.log.txs && (sys.log.holder == None || sys.log.holder == Some(t))
    case Insert(t, _) => t in sys.log.txs && sys.log.holder == Some(t)
    case FlushAll(t) => t in sys.log.txs && sys.log.holder == Some(t)
    case Commit(t) => t in sys.log.txs
    case Abort(t) => t in sys.log.txs
    case Prune(maxAge, maxEvents) => maxAge > 0 && maxEvents > 0
    case Subscribe(cursor) => IsCursor(sys.log.rows, cursor) || IsPruneCursor(sys.log.rows, cursor)
    case Poll(limit, batch) => limit > 0 && IsBatch(sys.log.rows, sys.reader.cursor, limit, batch)
  }

  ghost function NextLog(log: Log, step: Step): Log
  {
    match step
    case Tick(elapsed) => log.(clock := log.clock + elapsed)
    case AllocateElsewhere => log.(nextId := log.nextId + 1)
    case Begin(t) => log.(txs := log.txs[t := Tx([], [])])
    case Stage(t, draft) => if t in log.txs then StageOne(log, t, draft) else log
    case Lock(t) => log.(holder := Some(t))
    case Insert(t, draft) => if t in log.txs then InsertOne(log, t, draft) else log
    case FlushAll(t) => if t in log.txs then FlushStaged(log, t) else log
    case Commit(t) => if t in log.txs then Released(log, t).(rows := AddRows(log.rows, log.txs[t].inserted)) else log
    case Abort(t) => Released(log, t)
    case Prune(maxAge, maxEvents) => log.(rows := PrunedRows(log, maxAge, maxEvents))
    case Subscribe(_) => log
    case Poll(_, _) => log
  }

  ghost function Committed(log: Log, step: Step): seq<StreamEvent> {
    if step.Commit? && step.t in log.txs then log.txs[step.t].inserted else []
  }

  function After(cursor: int, batch: seq<int>): int {
    if batch == [] then cursor else batch[|batch| - 1]
  }

  function Fetch(rows: map<int, StreamEvent>, ids: seq<int>): (events: seq<StreamEvent>)
    requires forall i :: 0 <= i < |ids| ==> ids[i] in rows
    ensures |events| == |ids| && forall i :: 0 <= i < |ids| ==> events[i] == rows[ids[i]]
  {
    seq(|ids|, i requires 0 <= i < |ids| => rows[ids[i]])
  }

  /** Of the visible rows, exactly those from position `p` on lie after the cursor; none is gone. */
  ghost predicate Ahead(rows: map<int, StreamEvent>, history: seq<StreamEvent>, cursor: int, p: int) {
    forall i :: 0 <= i < |history| ==>
      if p <= i then history[i].id in rows && history[i].id > cursor
      else history[i].id !in rows || history[i].id <= cursor
  }

  /** The place in the history from which everything is visible and after the cursor. */
  ghost function PlaceOf(sys: Sys, cursor: int): (p: nat)
    ensures (exists k: nat :: k <= |sys.history| && Ahead(sys.log.rows, sys.history, cursor, k)) ==>
              p <= |sys.history| && Ahead(sys.log.rows, sys.history, cursor, p)
  {
    if exists k: nat :: k <= |sys.history| && Ahead(sys.log.rows, sys.history, cursor, k) then
      var k: nat :| k <= |sys.history| && Ahead(sys.log.rows, sys.history, cursor, k);
      k
    else 0
  }

  ghost function NextReader(sys: Sys, step: Step): Reader
    requires Enabled(sys, step)
  {
    match step
    case Subscribe(cursor) => Reader(PlaceOf(sys, cursor), cursor, [])
    case Poll(_, batch) =>
      sys.reader.(cursor := After(sys.reader.cursor, batch),
                  delivered := sys.reader.delivered + Fetch(sys.log.rows, batch))
    case _ => sys.reader
  }

  ghost function Next(sys: Sys, step: Step): Sys
    requires Enabled(sys, step)
  {
    Sys(NextLog(sys.log, step), sys.history + Committed(sys.log, step), NextReader(sys, step))
  }

  // -------------------------------------------------------------- invariant

  /** Ids strictly increase, creation times never decrease, and both lie behind the counters. */
  ghost predicate Sound(events: seq<StreamEvent>, nextId: int, clock: int) {
    && (forall i :: 0 <= i < |events| ==> 1 <= events[i].id < nextId && events[i].createdAt <= clock)
    && (forall i, j :: 0 <= i < j < |events| ==>
          events[i].id < events[j].id && events[i].createdAt <= events[j].createdAt)
  }

  ghost predicate RowsOk(rows: map<int, StreamEvent>, history: seq<StreamEvent>) {
    forall id :: id in rows ==> rows[id] in history && rows[id].id == id
  }

  /** Only the lock holder has inserts of its own, and they continue the history. */
  ghost predicate TxOk(log: Log, history: seq<StreamEvent>, t: int) {
    t in log.txs ==>
      && (log.txs[t].inserted == [] || log.holder == Some(t))
      && Sound(history + log.txs[t].inserted, log.nextId, log.clock)
  }

  ghost predicate LogInv(sys: Sys) {
    && 1 <= sys.log.nextId
    && Sound(sys.history, sys.log.nextId, sys.log.clock)
    && RowsOk(sys.log.rows, sys.history)
    && forall t :: TxOk(sys.log, sys.history, t)
  }

  lemma Appended(events: seq<StreamEvent>, event: StreamEvent, nextId: int, clock: int)
    requires Sound(events, nextId, clock) && event.id == nextId >= 1 && event.createdAt == clock
    ensures Sound(events + [event], nextId + 1, clock)
  {
  }

  lemma InsertOneKeepsTx(log: Log, history: seq<StreamEvent>, t: int, draft: Draft, u: int)
    requires 1 <= log.nextId && t in log.txs && log.holder == Some(t)
    requires TxOk(log, history, t) && TxOk(log, history, u)
    ensures TxOk(InsertOne(log, t, draft), history, u)
  {
    var next := InsertOne(log, t, draft);
    if u == t && next.txs != log.txs {
      hide Sound, HasRow, HasInserted;
      var inserted := log.txs[t].inserted;
      var event := StreamEvent(log.nextId, draft.key, draft.payload, log.clock);
      assert history + (inserted + [event]) == (history + inserted) + [event];
      Appended(history + inserted, event, log.nextId, log.clock);
    }
  }

  lemma InsertOneKeeps(sys: Sys, t: int, draft: Draft)
    requires LogInv(sys) && t in sys.log.txs && sys.log.holder == Some(t)
    ensures LogInv(sys.(log := InsertOne(sys.log, t, draft)))
    ensures InsertOne(sys.log, t, draft).holder == Some(t)
  {
    hide TxOk, HasRow, HasInserted;
    forall u ensures TxOk(InsertOne(sys.log, t, draft), sys.history, u) {
      assert TxOk(sys.log, sys.history, t) && TxOk(sys.log, sys.history, u);
      InsertOneKeepsTx(sys.log, sys.history, t, draft, u);
    }
  }

  lemma {:induction false} InsertAllKeeps(sys: Sys, t: int, drafts: seq<Draft>)
    requires LogInv(sys) && t in sys.log.txs && sys.log.holder == Some(t)
    ensures LogInv(sys.(log := InsertAll(sys.log, t, drafts)))
    ensures InsertAll(sys.log, t, drafts).holder == Some(t)
    decreases |drafts|
  {
    if drafts != [] {
      var front := drafts[..|drafts| - 1];
      InsertAllKeeps(sys, t, front);
      InsertOneKeeps(sys.(log := InsertAll(sys.log, t, front)), t, drafts[|drafts| - 1]);
    }
  }

  lemma {:induction false} AddedRows(rows: map<int, StreamEvent>, events: seq<StreamEvent>)
    ensures forall id :: id in AddRows(rows, events) ==>
              || (AddRows(rows, events)[id] in events && AddRows(rows, events)[id].id == id)
              || (id in rows && AddRows(rows, events)[id] == rows[id])
    ensures forall i :: 0 <= i < |events| ==> events[i].id in AddRows(rows, events)
    ensures forall id :: id in rows ==> id in AddRows(rows, events)
    decreases |events|
  {
    if events != [] {
      var front, last := events[..|events| - 1], events[|events| - 1];
      AddedRows(rows, front);
      assert events == front + [last];
      assert AddRows(rows, events) == AddRows(rows, front)[last.id := last];
      hide AddRows;
    }
  }

  lemma SoundSuffix(front: seq<StreamEvent>, back: seq<StreamEvent>, nextId: int, clock: int)
    requires Sound(front + back, nextId, clock)
    ensures Sound(back, nextId, clock)
  {
    forall i | 0 <= i < |back| ensures back[i] == (front + back)[|front| + i] {}
  }

  lemma CommitKeeps(sys: Sys, t: int)
    requires LogInv(sys) && t in sys.log.txs
    ensures LogInv(Next(sys, Commit(t)))
  {
    var next := Next(sys, Commit(t));
    var inserted := sys.log.txs[t].inserted;
    assert TxOk(sys.log, sys.history, t);
    SoundSuffix(sys.history, inserted, sys.log.nextId, sys.log.clock);
    AddedRows(sys.log.rows, inserted);
    forall u ensures TxOk(next.log, next.history, u) {
      assert TxOk(sys.log, sys.history, u);
      if u in next.log.txs {
        if inserted == [] { assert next.history == sys.history; }
        else { assert next.history + [] == next.history; }
      }
    }
  }

  lemma FlushAllKeeps(sys: Sys, t: int)
    requires LogInv(sys) && Enabled(sys, FlushAll(t))
    ensures LogInv(Next(sys, FlushAll(t)))
  {
    var next := Next(sys, FlushAll(t));
    var drafts := sys.log.txs[t].staged;
    var flushed := InsertAll(sys.log, t, drafts);
    InsertAllKeeps(sys, t, drafts);
    assert next.history == sys.history;
    forall u ensures TxOk(next.log, sys.history, u) { assert TxOk(flushed, sys.history, u); }
  }

  lemma QuietStepKeeps(sys: Sys, step: Step)
    requires LogInv(sys) && Enabled(sys, step) && !step.Commit? && !step.Insert? && !step.FlushAll?
    ensures LogInv(Next(sys, step))
  {
    var next := Next(sys, step);
    assert next.history == sys.history;
    forall u ensures TxOk(next.log, sys.history, u) {
      assert TxOk(sys.log, sys.history, u);
      assert sys.history + [] == sys.history;
    }
  }

  lemma StepKeepsLog(sys: Sys, step: Step)
    requires LogInv(sys) && Enabled(sys, step)
    ensures LogInv(Next(sys, step))
  {
    match step
    case Commit(t) => CommitKeeps(sys, t);
    case Insert(t, draft) =>
      InsertOneKeeps(sys, t, draft);
      assert Next(sys, step) == sys.(log := InsertOne(sys.log, t, draft));
    case FlushAll(t) => FlushAllKeeps(sys, t);
    case _ => QuietStepKeeps(sys, step);
  }

  // ------------------------------------------------------- retained history

  /** The visible rows are exactly the history from position `k` on. */
  ghost predicate SuffixFrom(rows: map<int, StreamEvent>, history: seq<StreamEvent>, k: int) {
    && 0 <= k <= |history|
    && forall i :: 0 <= i < |history| ==> (history[i].id in rows <==> k <= i)
  }

  ghost predicate Retained(sys: Sys) {
    exists k :: SuffixFrom(sys.log.rows, sys.history, k)
  }

  /** With both bounds, what survives a prune is closed towards newer rows. */
  lemma KeptIsUpward(log: Log, maxAge: int, maxEvents: int, a: int, b: int)
    requires a in log.rows && b in log.rows && a < b ==> log.rows[a].createdAt <= log.rows[b].createdAt
    requires a < b && b in log.rows && a in PrunedRows(log, maxAge, maxEvents)
    ensures b in PrunedRows(log, maxAge, maxEvents)
  {
    var recent := RecentRows(log.rows, log.clock - maxAge);
    assert a in recent && b in recent;
    SubsetSize(Newer(recent, b), Newer(recent, a));
  }

  lemma {:induction false} FirstKept(ids: seq<int>, kept: set<int>) returns (k: nat)
    requires forall i, j | 0 <= i < j < |ids| && ids[i] in kept :: ids[j] in kept
    ensures k <= |ids|
    ensures forall i | 0 <= i < |ids| :: ids[i] in kept <==> k <= i
    decreases |ids|
  {
    if ids == [] { return 0; }
    var front := ids[..|ids| - 1];
    assert forall i | 0 <= i < |front| :: front[i] == ids[i];
    k := FirstKept(front, kept);
    if k == |front| && ids[|front|] !in kept { k := |ids|; }
    forall i | 0 <= i < |ids| ensures ids[i] in kept <==> k <= i {
      if i < |front| { assert front[i] == ids[i]; }
      else if k < |front| { assert front[k] in kept; }
    }
  }

  lemma TimeOrder(sys: Sys, a: int, b: int)
    requires LogInv(sys) && a in sys.log.rows && b in sys.log.rows && a < b
    ensures sys.log.rows[a].createdAt <= sys.log.rows[b].createdAt
  {
    var i :| 0 <= i < |sys.history| && sys.history[i] == sys.log.rows[a];
    var j :| 0 <= j < |sys.history| && sys.history[j] == sys.log.rows[b];
    assert i < j;
  }

  lemma PruneRetains(sys: Sys, maxAge: int, maxEvents: int)
    requires LogInv(sys) && Retained(sys) && maxAge > 0 && maxEvents > 0
    ensures Retained(Next(sys, Prune(maxAge, maxEvents)))
  {
    var next := Next(sys, Prune(maxAge, maxEvents));
    var ids := Ids(sys.history);
    assert next.history == sys.history;
    var k0 :| SuffixFrom(sys.log.rows, sys.history, k0);
    var kept := next.log.rows.Keys;
    forall i, j | 0 <= i < j < |ids| && ids[i] in kept ensures ids[j] in kept {
      assert ids[i] in sys.log.rows && ids[j] in sys.log.rows;
      TimeOrder(sys, ids[i], ids[j]);
      KeptIsUpward(sys.log, maxAge, maxEvents, ids[i], ids[j]);
    }
    var k := FirstKept(ids, kept);
    assert SuffixFrom(next.log.rows, next.history, k);
  }

  lemma CommitRetains(sys: Sys, t: int)
    requires LogInv(sys) && Retained(sys) && t in sys.log.txs
    ensures Retained(Next(sys, Commit(t)))
  {
    var next := Next(sys, Commit(t));
    var inserted := sys.log.txs[t].inserted;
    assert TxOk(sys.log, sys.history, t);
    SoundSuffix(sys.history, inserted, sys.log.nextId, sys.log.clock);
    AddedRows(sys.log.rows, inserted);
    var k :| SuffixFrom(sys.log.rows, sys.history, k);
    forall i | 0 <= i < |next.history| ensures next.history[i].id in next.log.rows <==> k <= i {
      if i < |sys.history| {
        CommittedApart(sys, t, i);
      } else {
        assert next.history[i] == inserted[i - |sys.history|];
      }
    }
    assert SuffixFrom(next.log.rows, next.history, k);
  }

  /** A commit neither revives nor hides an event committed before it. */
  lemma CommittedApart(sys: Sys, t: int, i: int)
    requires LogInv(sys) && t in sys.log.txs && 0 <= i < |sys.history|
    ensures sys.history[i].id in Next(sys, Commit(t)).log.rows <==> sys.history[i].id in sys.log.rows
  {
    var inserted := sys.log.txs[t].inserted;
    assert TxOk(sys.log, sys.history, t);
    SoundSuffix(sys.history, inserted, sys.log.nextId, sys.log.clock);
    AddedRows(sys.log.rows, inserted);
    var all := sys.history + inserted;
    forall j | 0 <= j < |inserted| ensures inserted[j].id != sys.history[i].id {
      assert all[|sys.history| + j] == inserted[j] && all[i] == sys.history[i];
    }
  }

  lemma {:induction false} InsertsAreHidden(log: Log, t: int, drafts: seq<Draft>)
    requires t in log.txs
    ensures InsertAll(log, t, drafts).rows == log.rows
    decreases |drafts|
  {
    if drafts != [] { InsertsAreHidden(log, t, drafts[..|drafts| - 1]); }
  }

  /** Only commits and prunes change what is visible, and only commits extend the history. */
  lemma QuietRows(sys: Sys, step: Step)
    requires Enabled(sys, step)
    ensures !step.Commit? ==> Next(sys, step).history == sys.history
    ensures !step.Commit? && !step.Prune? ==> Next(sys, step).log.rows == sys.log.rows
  {
    if step.FlushAll? { InsertsAreHidden(sys.log, step.t, sys.log.txs[step.t].staged); }
  }

  lemma StepRetains(sys: Sys, step: Step)
    requires LogInv(sys) && Retained(sys) && Enabled(sys, step)
    ensures Retained(Next(sys, step))
  {
    match step
    case Commit(t) => CommitRetains(sys, t);
    case Prune(maxAge, maxEvents) => PruneRetains(sys, maxAge, maxEvents);
    case _ => QuietRows(sys, step);
  }

  // ----------------------------------------------------------------- readers

  /** `delivered` is the stretch of the history that starts at `base`. */
  ghost predicate Handed(delivered: seq<StreamEvent>, history: seq<StreamEvent>, base: nat) {
    && base + |delivered| <= |history|
    && forall i :: 0 <= i < |delivered| ==> delivered[i] == history[base + i]
  }

  /** The batch names the stretch of the history that starts at `p`. */
  ghost predicate Names(batch: seq<int>, history: seq<StreamEvent>, p: nat) {
    && p + |batch| <= |history|
    && forall i :: 0 <= i < |batch| ==> batch[i] == history[p + i].id
  }

  ghost predicate CursorOk(history: seq<StreamEvent>, cursor: int) {
    && 0 <= cursor
    && (cursor > 0 ==> history != [] && cursor <= history[|history| - 1].id)
  }

  /** The reader was handed a contiguous stretch, and all that follows it is still readable. */
  ghost predicate ReaderOk(sys: Sys) {
    && Handed(sys.reader.delivered, sys.history, sys.reader.base)
    && CursorOk(sys.history, sys.reader.cursor)
    && Ahead(sys.log.rows, sys.history, sys.reader.cursor, sys.reader.Position())
  }

  /** A prune that removes nothing the reader has yet to read. */
  ghost predicate SparesReader(sys: Sys, step: Step) {
    step.Prune? ==>
      forall id :: id in sys.log.rows && sys.reader.cursor < id ==>
        id in PrunedRows(sys.log, step.maxAge, step.maxEvents)
  }

  /** A batch of the smallest members is a prefix of the ascending list of all of them. */
  lemma BatchIsPrefix(all: seq<int>, batch: seq<int>, limit: int)
    requires Ascending(all) && Ascending(batch) && |batch| <= limit
    requires forall i :: 0 <= i < |batch| ==> batch[i] in all
    requires forall x :: x in all && x !in batch ==> |batch| == limit && forall i :: 0 <= i < |batch| ==> batch[i] < x
    ensures |batch| <= |all| && batch == all[..|batch|]
    ensures |batch| < limit ==> batch == all
  {
    forall k | 0 <= k < |batch| ensures k < |all| && batch[k] == all[k] { BatchAt(all, batch, limit, k); }
    if batch != [] { BatchAt(all, batch, limit, |batch| - 1); }
    if |batch| < limit && all != [] {
      var last := all[|all| - 1];
      assert last in all && last in batch;
      var j :| 0 <= j < |batch| && batch[j] == last;
      assert all[j] == last;
      assert |all| == |batch|;
    }
  }

  lemma {:induction false} BatchAt(all: seq<int>, batch: seq<int>, limit: int, k: nat)
    requires Ascending(all) && Ascending(batch) && k < |batch|
    requires forall i :: 0 <= i < |batch| ==> batch[i] in all
    requires forall x :: x in all && x !in batch ==> |batch| == limit && forall i :: 0 <= i < |batch| ==> batch[i] < x
    ensures k < |all| && batch[k] == all[k]
  {
    forall j | 0 <= j < k ensures j < |all| && batch[j] == all[j] { BatchAt(all, batch, limit, j); }
    var m :| 0 <= m < |all| && all[m] == batch[k];
    assert !(m < k);
    assert all[k] <= batch[k];
    assert all[k] in all;
    var j :| 0 <= j < |batch| && batch[j] == all[k];
    assert j <= k;
    assert !(j < k);
  }

  /** Every visible row after the cursor is at its place in the history. */
  lemma RowPlace(rows: map<int, StreamEvent>, history: seq<StreamEvent>, cursor: int, p: nat, id: int) returns (i: nat)
    requires RowsOk(rows, history) && Ahead(rows, history, cursor, p)
    requires id in rows && id > cursor
    ensures p <= i < |history| && history[i].id == id
  {
    i :| 0 <= i < |history| && history[i] == rows[id];
  }

  ghost predicate Increasing(history: seq<StreamEvent>) {
    forall i, j :: 0 <= i < j < |history| ==> history[i].id < history[j].id
  }

  function IdsFrom(history: seq<StreamEvent>, p: nat): (ids: seq<int>)
    requires p <= |history|
    ensures |ids| == |history| - p && forall i | 0 <= i < |ids| :: ids[i] == history[p + i].id
  {
    Ids(history[p..])
  }

  lemma UnreadRows(rows: map<int, StreamEvent>, history: seq<StreamEvent>, cursor: int, p: nat, id: int)
    requires RowsOk(rows, history) && Ahead(rows, history, cursor, p) && p <= |history|
    ensures id in IdsFrom(history, p) <==> id in rows && id > cursor
  {
    var all := IdsFrom(history, p);
    if id in rows && id > cursor {
      var i := RowPlace(rows, history, cursor, p, id);
      assert all[i - p] == id;
    }
    if id in all {
      var i :| 0 <= i < |all| && all[i] == id;
      assert history[p + i].id == id;
    }
  }

  /** A read after the cursor hands over exactly the next stretch of the history; a short one
      reaches its end. */
  lemma PollReadsOn(
    rows: map<int, StreamEvent>, history: seq<StreamEvent>, cursor: int, p: nat, limit: int, batch: seq<int>)
    requires Increasing(history) && RowsOk(rows, history) && Ahead(rows, history, cursor, p)
    requires p <= |history| && limit > 0 && IsBatch(rows, cursor, limit, batch)
    ensures Names(batch, history, p)
    ensures |batch| < limit ==> p + |batch| == |history|
  {
    var all := IdsFrom(history, p);
    assert Ascending(all);
    forall id ensures id in all <==> id in rows && id > cursor { UnreadRows(rows, history, cursor, p, id); }
    BatchIsPrefix(all, batch, limit);
    forall i | 0 <= i < |batch| ensures batch[i] == history[p + i].id { assert all[..|batch|][i] == all[i]; }
  }

  lemma PollKeepsReader(sys: Sys, limit: int, batch: seq<int>)
    requires LogInv(sys) && ReaderOk(sys) && Enabled(sys, Poll(limit, batch))
    ensures ReaderOk(Next(sys, Poll(limit, batch)))
  {
    assert Increasing(sys.history);
    PollMovesReader(sys.log.rows, sys.history, sys.reader, limit, batch);
    assert Next(sys, Poll(limit, batch)).history == sys.history;
  }

  lemma PollMovesReader(
    rows: map<int, StreamEvent>, history: seq<StreamEvent>, reader: Reader, limit: int, batch: seq<int>)
    requires Increasing(history) && RowsOk(rows, history) && limit > 0 && IsBatch(rows, reader.cursor, limit, batch)
    requires Handed(reader.delivered, history, reader.base) && CursorOk(history, reader.cursor)
    requires Ahead(rows, history, reader.cursor, reader.Position())
    ensures Handed(reader.delivered + Fetch(rows, batch), history, reader.base)
    ensures CursorOk(history, After(reader.cursor, batch))
    ensures Ahead(rows, history, After(reader.cursor, batch), reader.base + |reader.delivered + Fetch(rows, batch)|)
  {
    var p := reader.Position();
    PollReadsOn(rows, history, reader.cursor, p, limit, batch);
    NamesMoveReader(rows, history, reader, batch);
  }

  lemma NamesMoveReader(rows: map<int, StreamEvent>, history: seq<StreamEvent>, reader: Reader, batch: seq<int>)
    requires Increasing(history) && RowsOk(rows, history) && Names(batch, history, reader.Position())
    requires forall i :: 0 <= i < |batch| ==> batch[i] in rows
    requires Handed(reader.delivered, history, reader.base) && CursorOk(history, reader.cursor)
    requires Ahead(rows, history, reader.cursor, reader.Position())
    ensures Handed(reader.delivered + Fetch(rows, batch), history, reader.base)
    ensures CursorOk(history, After(reader.cursor, batch))
    ensures Ahead(rows, history, After(reader.cursor, batch), reader.base + |reader.delivered + Fetch(rows, batch)|)
  {
    var p := reader.Position();
    FetchedIsHanded(rows, history, p, batch);
    HandedMore(reader.delivered, Fetch(rows, batch), history, reader.base);
    AheadOf(rows, history, reader.cursor, p, batch);
    assert reader.base + |reader.delivered + Fetch(rows, batch)| == p + |batch|;
  }

  lemma FetchedIsHanded(rows: map<int, StreamEvent>, history: seq<StreamEvent>, p: nat, batch: seq<int>)
    requires Increasing(history) && RowsOk(rows, history) && Names(batch, history, p)
    requires forall i :: 0 <= i < |batch| ==> batch[i] in rows
    ensures Handed(Fetch(rows, batch), history, p)
  {
    forall i | 0 <= i < |batch| ensures rows[batch[i]] == history[p + i] {
      var k :| 0 <= k < |history| && history[k] == rows[batch[i]];
      assert k == p + i;
    }
  }

  lemma HandedMore(first: seq<StreamEvent>, second: seq<StreamEvent>, history: seq<StreamEvent>, base: nat)
    requires Handed(first, history, base) && Handed(second, history, base + |first|)
    ensures Handed(first + second, history, base)
  {
  }

  lemma AheadOf(rows: map<int, StreamEvent>, history: seq<StreamEvent>, cursor: int, p: nat, batch: seq<int>)
    requires Increasing(history) && CursorOk(history, cursor) && Ahead(rows, history, cursor, p)
    requires Names(batch, history, p)
    ensures CursorOk(history, After(cursor, batch)) && Ahead(rows, history, After(cursor, batch), p + |batch|)
  {
    if batch != [] {
      var last := p + |batch| - 1;
      assert history[last].id == After(cursor, batch);
      assert history[last].id <= history[|history| - 1].id;
    }
  }

  lemma CommitKeepsAhead(sys: Sys, t: int, p: int)
    requires LogInv(sys) && CursorOk(sys.history, sys.reader.cursor) && t in sys.log.txs && p <= |sys.history|
    requires Ahead(sys.log.rows, sys.history, sys.reader.cursor, p)
    ensures Ahead(Next(sys, Commit(t)).log.rows, Next(sys, Commit(t)).history, sys.reader.cursor, p)
    ensures CursorOk(Next(sys, Commit(t)).history, sys.reader.cursor)
  {
    var next := Next(sys, Commit(t));
    var inserted := sys.log.txs[t].inserted;
    assert TxOk(sys.log, sys.history, t);
    SoundSuffix(sys.history, inserted, sys.log.nextId, sys.log.clock);
    AddedRows(sys.log.rows, inserted);
    forall i | 0 <= i < |sys.history|
      ensures next.history[i].id in next.log.rows <==> sys.history[i].id in sys.log.rows
    {
      CommittedApart(sys, t, i);
    }
    forall i | |sys.history| <= i < |next.history|
      ensures next.history[i].id in next.log.rows && next.history[i].id > sys.reader.cursor
    {
      assert next.history[i] == inserted[i - |sys.history|];
      if sys.history != [] { assert next.history[|sys.history| - 1].id < next.history[i].id; }
    }
  }

  lemma StepKeepsReader(sys: Sys, step: Step)
    requires LogInv(sys) && Retained(sys) && ReaderOk(sys) && Enabled(sys, step) && SparesReader(sys, step)
    ensures ReaderOk(Next(sys, step))
  {
    QuietRows(sys, step);
    match step
    case Commit(t) =>
      CommitKeepsAhead(sys, t, sys.reader.Position());
      assert Next(sys, step).reader == sys.reader;
    case Poll(limit, batch) => PollKeepsReader(sys, limit, batch);
    case Subscribe(cursor) => SubscribeStartsReader(sys, cursor);
    case Prune(maxAge, maxEvents) =>
      var next := Next(sys, step);
      assert next.log.rows == PrunedRows(sys.log, maxAge, maxEvents) && next.reader == sys.reader;
      assert Ahead(next.log.rows, sys.history, sys.reader.cursor, sys.reader.Position());
    case _ =>
  }

  /** The newest visible id is the end of the history. */
  lemma CursorIsPlace(sys: Sys, cursor: int)
    requires LogInv(sys) && IsCursor(sys.log.rows, cursor)
    ensures Ahead(sys.log.rows, sys.history, cursor, |sys.history|) && CursorOk(sys.history, cursor)
  {
    if sys.log.rows != map[] {
      var i :| 0 <= i < |sys.history| && sys.history[i] == sys.log.rows[cursor];
      assert sys.history[i].id <= sys.history[|sys.history| - 1].id;
    }
  }

  /** The cursor a prune returns is just before the oldest retained event. */
  lemma PruneCursorIsPlace(sys: Sys, cursor: int) returns (base: nat)
    requires LogInv(sys) && Retained(sys) && IsPruneCursor(sys.log.rows, cursor)
    ensures SuffixFrom(sys.log.rows, sys.history, base)
    ensures Ahead(sys.log.rows, sys.history, cursor, base) && CursorOk(sys.history, cursor)
  {
    var k :| SuffixFrom(sys.log.rows, sys.history, k);
    base := k;
    if sys.log.rows != map[] {
      var i :| 0 <= i < |sys.history| && sys.history[i] == sys.log.rows[cursor + 1];
      assert sys.history[i].id <= sys.history[|sys.history| - 1].id;
      assert k <= i;
    } else {
      if |sys.history| > 0 { assert sys.history[|sys.history| - 1].id !in sys.log.rows; }
    }
  }

  /** There is only one such place. */
  lemma PlaceIs(sys: Sys, cursor: int, p: nat)
    requires p <= |sys.history| && Ahead(sys.log.rows, sys.history, cursor, p)
    ensures PlaceOf(sys, cursor) == p
  {
    var q := PlaceOf(sys, cursor);
    NotBefore(sys.log.rows, sys.history, cursor, p, q);
    NotBefore(sys.log.rows, sys.history, cursor, q, p);
  }

  lemma NotBefore(rows: map<int, StreamEvent>, history: seq<StreamEvent>, cursor: int, p: nat, q: nat)
    requires p <= |history| && q <= |history| && Ahead(rows, history, cursor, p) && Ahead(rows, history, cursor, q)
    ensures p >= q
  {
    assert p < |history| ==> history[p].id in rows && history[p].id > cursor;
  }

  /** A subscription at the newest id, or at a prune's cursor, starts a reader that has lost nothing:
      at the end of the history, or at the oldest retained event. */
  lemma SubscribeStartsReader(sys: Sys, cursor: int)
    requires LogInv(sys) && Retained(sys) && Enabled(sys, Subscribe(cursor))
    ensures ReaderOk(Next(sys, Subscribe(cursor)))
    ensures IsCursor(sys.log.rows, cursor) ==> Next(sys, Subscribe(cursor)).reader == Reader(|sys.history|, cursor, [])
    ensures IsPruneCursor(sys.log.rows, cursor) ==>
              SuffixFrom(sys.log.rows, sys.history, Next(sys, Subscribe(cursor)).reader.base)
  {
    if IsCursor(sys.log.rows, cursor) {
      CursorIsPlace(sys, cursor);
      PlaceIs(sys, cursor, |sys.history|);
    }
    if IsPruneCursor(sys.log.rows, cursor) {
      var k := PruneCursorIsPlace(sys, cursor);
      PlaceIs(sys, cursor, k);
    }
    assert Next(sys, Subscribe(cursor)).history == sys.history;
  }

  // -------------------------------------------------------------------- runs

  ghost predicate Takes(before: Sys, step: Step, after: Sys) {
    Enabled(before, step) && after == Next(before, step)
  }

  function Empty(clock: int): Sys {
    Sys(Log(map[], 1, None, map[], clock), [], Reader(0, 0, []))
  }

  ghost predicate IsRun(start: Sys, run: seq<Step>, states: seq<Sys>) {
    && |states| == |run| + 1
    && states[0] == start
    && forall i :: 0 <= i < |run| ==> Takes(states[i], run[i], states[i + 1])
  }

  lemma {:induction false} RunKeepsLog(clock: int, run: seq<Step>, states: seq<Sys>, i: nat)
    requires IsRun(Empty(clock), run, states) && i <= |run|
    ensures LogInv(states[i]) && Retained(states[i])
  {
    if i == 0 {
      assert SuffixFrom(states[0].log.rows, states[0].history, 0);
    } else {
      RunKeepsLog(clock, run, states, i - 1);
      assert Takes(states[i - 1], run[i - 1], states[i - 1 + 1]);
      StepKeepsLog(states[i - 1], run[i - 1]);
      StepRetains(states[i - 1], run[i - 1]);
    }
  }

  lemma {:induction false} HistoryGrows(clock: int, run: seq<Step>, states: seq<Sys>, i: nat, j: nat)
    requires IsRun(Empty(clock), run, states) && i <= j <= |run|
    ensures states[i].history <= states[j].history
  {
    if i < j {
      HistoryGrows(clock, run, states, i, j - 1);
      assert Takes(states[j - 1], run[j - 1], states[j - 1 + 1]);
    }
  }

  /** No event ever becomes visible with an id at or below one that was visible before. */
  lemma NoLateCommit(clock: int, run: seq<Step>, states: seq<Sys>, i: nat, j: nat, early: int, late: int)
    requires IsRun(Empty(clock), run, states) && i <= j <= |run|
    requires 0 <= early < |states[i].history| <= late < |states[j].history|
    ensures states[j].history[early] == states[i].history[early]
    ensures states[i].history[early].id < states[j].history[late].id
    ensures states[i].history[early].createdAt <= states[j].history[late].createdAt
  {
    HistoryGrows(clock, run, states, i, j);
    RunKeepsLog(clock, run, states, j);
  }

  /** The reader subscribes at step `i` and keeps this subscription up to state `j`. */
  ghost predicate Subscribed(run: seq<Step>, i: nat, j: nat) {
    i < j <= |run| && run[i].Subscribe? && forall k :: i < k < j ==> !run[k].Subscribe?
  }

  /** Every prune between the states `i` and `j` spared the reader. */
  ghost predicate Spared(run: seq<Step>, states: seq<Sys>, i: nat, j: nat)
    requires |states| == |run| + 1 && j <= |run|
  {
    forall k :: i <= k < j ==> SparesReader(states[k], run[k])
  }

  /** A reader that subscribes at any state of any run, and is spared by every later prune, has at
      each later state been handed the history from its starting point, in order, without gap or
      repetition, and all the rest is still there for it to read. */
  lemma {:induction false} ReadersMissNothing(clock: int, run: seq<Step>, states: seq<Sys>, i: nat, j: nat)
    requires IsRun(Empty(clock), run, states) && Subscribed(run, i, j) && Spared(run, states, i + 1, j)
    ensures ReaderOk(states[j]) && states[j].reader.base == states[i + 1].reader.base
    ensures states[i + 1].reader.delivered == [] && states[i + 1].reader.cursor == run[i].cursor
    decreases j
  {
    hide LogInv, ReaderOk, Retained;
    RunKeepsLog(clock, run, states, j - 1);
    assert Takes(states[j - 1], run[j - 1], states[j - 1 + 1]);
    if i + 1 == j {
      SubscribeStartsReader(states[i], run[i].cursor);
    } else {
      ReadersMissNothing(clock, run, states, i, j - 1);
      StepKeepsReader(states[j - 1], run[j - 1]);
    }
  }

  /** What a reader was handed only grows while it keeps its subscription. */
  lemma {:induction false} DeliveredGrows(clock: int, run: seq<Step>, states: seq<Sys>, i: nat, j: nat)
    requires IsRun(Empty(clock), run, states) && i <= j <= |run| && forall k :: i <= k < j ==> !run[k].Subscribe?
    ensures states[i].reader.base == states[j].reader.base
    ensures states[i].reader.delivered <= states[j].reader.delivered
  {
    if i < j {
      DeliveredGrows(clock, run, states, i, j - 1);
      assert Takes(states[j - 1], run[j - 1], states[j - 1 + 1]);
    }
  }

  /** A poll shorter than its limit leaves the reader with every event committed since it started. */
  lemma ShortPollCatchesUp(clock: int, run: seq<Step>, states: seq<Sys>, i: nat, j: nat)
    requires IsRun(Empty(clock), run, states) && Subscribed(run, i, j) && Spared(run, states, i + 1, j)
    requires j < |run| && run[j].Poll? && |run[j].batch| < run[j].limit
    ensures var history, base := states[j + 1].history, states[i + 1].reader.base;
            && base <= |history|
            && states[j + 1].reader.delivered == history[base..]
  {
    ReadersMissNothing(clock, run, states, i, j);
    RunKeepsLog(clock, run, states, j);
    assert Takes(states[j], run[j], states[j + 1]);
    PollCatchesUp(states[j], run[j].limit, run[j].batch);
  }

  lemma ShortPollReadsAll(sys: Sys, limit: int, batch: seq<int>)
    requires LogInv(sys) && ReaderOk(sys) && Enabled(sys, Poll(limit, batch)) && |batch| < limit
    ensures sys.reader.Position() + |batch| == |sys.history|
  {
    assert Increasing(sys.history);
    hide Increasing, RowsOk, Ahead, IsBatch, Names;
    PollReadsOn(sys.log.rows, sys.history, sys.reader.cursor, sys.reader.Position(), limit, batch);
  }

  lemma PollCatchesUp(sys: Sys, limit: int, batch: seq<int>)
    requires LogInv(sys) && ReaderOk(sys) && Enabled(sys, Poll(limit, batch)) && |batch| < limit
    ensures var next := Next(sys, Poll(limit, batch));
            && next.history == sys.history && sys.reader.base <= |sys.history|
            && next.reader.delivered == next.history[sys.reader.base..]
  {
    hide LogInv, Ahead;
    ShortPollReadsAll(sys, limit, batch);
    PollKeepsReader(sys, limit, batch);
    var next := Next(sys, Poll(limit, batch));
    assert next.history == sys.history;
    assert |next.reader.delivered| == |sys.history| - sys.reader.base;
  }

  /** An event after the reader's starting point is gone, and the reader was never handed it. */
  ghost predicate Missed(sys: Sys, k: nat) {
    && sys.reader.base <= k < |sys.history|
    && sys.history[k].id !in sys.log.rows
    && sys.history[k] !in sys.reader.delivered
  }

  lemma MissedStep(sys: Sys, step: Step, k: nat)
    requires LogInv(sys) && Enabled(sys, step) && !step.Subscribe? && Missed(sys, k)
    ensures Missed(Next(sys, step), k)
  {
    QuietRows(sys, step);
    if step.Commit? { CommittedApart(sys, step.t, k); }
    if step.Poll? {
      forall i | 0 <= i < |step.batch| ensures Fetch(sys.log.rows, step.batch)[i] != sys.history[k] {
        assert sys.log.rows[step.batch[i]].id == step.batch[i];
      }
    }
  }

  /** A missed event stays missed: it is never delivered later. */
  lemma {:induction false} MissedForGood(clock: int, run: seq<Step>, states: seq<Sys>, i: nat, j: nat, k: nat)
    requires IsRun(Empty(clock), run, states) && i <= j <= |run| && forall l :: i <= l < j ==> !run[l].Subscribe?
    requires Missed(states[i], k)
    ensures Missed(states[j], k)
  {
    if i < j {
      MissedForGood(clock, run, states, i, j - 1, k);
      RunKeepsLog(clock, run, states, j - 1);
      assert Takes(states[j - 1], run[j - 1], states[j - 1 + 1]);
      MissedStep(states[j - 1], run[j - 1], k);
    }
  }

  /** A prune that does not spare the reader takes an event from it. */
  lemma UnsparingPruneTakes(sys: Sys, step: Step) returns (k: nat)
    requires LogInv(sys) && ReaderOk(sys) && Enabled(sys, step) && !SparesReader(sys, step)
    ensures Missed(Next(sys, step), k)
  {
    var id :| id in sys.log.rows && sys.reader.cursor < id && id !in PrunedRows(sys.log, step.maxAge, step.maxEvents);
    k := RowPlace(sys.log.rows, sys.history, sys.reader.cursor, sys.reader.Position(), id);
    var next := Next(sys, step);
    assert next.history == sys.history && next.reader == sys.reader;
    assert next.log.rows == PrunedRows(sys.log, step.maxAge, step.maxEvents);
    forall i | 0 <= i < |sys.reader.delivered| ensures sys.reader.delivered[i] != sys.history[k] {
      assert sys.reader.delivered[i] == sys.history[sys.reader.base + i];
    }
  }

  lemma {:induction false} UnsparedMisses(clock: int, run: seq<Step>, states: seq<Sys>, i: nat, j: nat) returns (k: nat)
    requires IsRun(Empty(clock), run, states) && Subscribed(run, i, j) && !Spared(run, states, i + 1, j)
    ensures Missed(states[j], k)
    decreases j
  {
    if Spared(run, states, i + 1, j - 1) {
      k := FirstUnsparing(clock, run, states, i, j - 1);
    } else {
      k := UnsparedMisses(clock, run, states, i, j - 1);
      MissedForGood(clock, run, states, j - 1, j, k);
    }
  }

  lemma FirstUnsparing(clock: int, run: seq<Step>, states: seq<Sys>, i: nat, j: nat) returns (k: nat)
    requires IsRun(Empty(clock), run, states) && j < |run| && Subscribed(run, i, j)
    requires Spared(run, states, i + 1, j) && !SparesReader(states[j], run[j])
    ensures Missed(states[j + 1], k)
  {
    RunKeepsLog(clock, run, states, j);
    assert Takes(states[j], run[j], states[j + 1]);
    ReadersMissNothing(clock, run, states, i, j);
    k := UnsparingPruneTakes(states[j], run[j]);
  }

  /** A reader misses an event if and only if some prune did not spare it. */
  lemma {:induction false} ReadersMissExactlyWhatPrunesTake(
      clock: int, run: seq<Step>, states: seq<Sys>, i: nat, j: nat)
    requires IsRun(Empty(clock), run, states) && Subscribed(run, i, j)
    ensures (exists k :: Missed(states[j], k)) <==> !Spared(run, states, i + 1, j)
  {
    if Spared(run, states, i + 1, j) {
      ReadersMissNothing(clock, run, states, i, j);
      forall k ensures !Missed(states[j], k) { NothingMissed(states[j], k); }
    } else {
      var k := UnsparedMisses(clock, run, states, i, j);
    }
  }

  lemma NothingMissed(sys: Sys, k: nat)
    requires ReaderOk(sys)
    ensures !Missed(sys, k)
  {
    if sys.reader.base <= k < sys.reader.Position() {
      assert sys.reader.delivered[k - sys.reader.base] == sys.history[k];
    }
  }

  // ---------------------------------------------------- flushes as single steps

  /** The steps lead from one state to the other. */
  ghost predicate Leads(sys: Sys, steps: seq<Step>, last: Sys) {
    exists states :: IsRun(sys, steps, states) && states[|steps|] == last
  }

  lemma LeadsNowhere(sys: Sys)
    ensures Leads(sys, [], sys)
  {
    assert IsRun(sys, [], [sys]);
  }

  lemma LeadsOn(sys: Sys, steps: seq<Step>, mid: Sys, step: Step)
    requires Leads(sys, steps, mid) && Enabled(mid, step)
    ensures Leads(sys, steps + [step], Next(mid, step))
  {
    var states :| IsRun(sys, steps, states) && states[|steps|] == mid;
    var longer := states + [Next(mid, step)];
    forall i | 0 <= i < |steps + [step]| ensures Takes(longer[i], (steps + [step])[i], longer[i + 1]) {
      if i < |steps| { assert Takes(states[i], steps[i], states[i + 1]); }
    }
    assert IsRun(sys, steps + [step], longer);
  }

  function Inserts(t: int, drafts: seq<Draft>): seq<Step> {
    if drafts == [] then [] else Inserts(t, drafts[..|drafts| - 1]) + [Insert(t, drafts[|drafts| - 1])]
  }

  function Stages(t: int, drafts: seq<Draft>): seq<Step> {
    if drafts == [] then [] else Stages(t, drafts[..|drafts| - 1]) + [Stage(t, drafts[|drafts| - 1])]
  }

  /** A direct flush is the lock and then one insert after the other. */
  lemma {:induction false} DirectFlushIsSteps(sys: Sys, t: int, drafts: seq<Draft>)
    requires Enabled(sys, Lock(t))
    ensures Leads(sys, [Lock(t)] + Inserts(t, drafts),
                  sys.(log := InsertAll(sys.log.(holder := Some(t)), t, drafts)))
    ensures InsertAll(sys.log.(holder := Some(t)), t, drafts).holder == Some(t)
    decreases |drafts|
  {
    var locked := sys.log.(holder := Some(t));
    if drafts == [] {
      LeadsNowhere(sys);
      LeadsOn(sys, [], sys, Lock(t));
      assert [] + [Lock(t)] == [Lock(t)] + Inserts(t, drafts);
      assert Next(sys, Lock(t)) == sys.(log := locked);
    } else {
      var front, last := drafts[..|drafts| - 1], drafts[|drafts| - 1];
      DirectFlushIsSteps(sys, t, front);
      var mid := sys.(log := InsertAll(locked, t, front));
      LeadsOn(sys, [Lock(t)] + Inserts(t, front), mid, Insert(t, last));
      assert [Lock(t)] + Inserts(t, front) + [Insert(t, last)] == [Lock(t)] + Inserts(t, drafts);
      assert Next(mid, Insert(t, last)) == sys.(log := InsertOne(mid.log, t, last));
    }
  }

  /** A staged flush is staging, the lock, and then one statement for all that is staged. */
  lemma {:induction false} StagedFlushIsSteps(sys: Sys, t: int, drafts: seq<Draft>)
    requires Enabled(sys, Lock(t))
    ensures Leads(sys, Stages(t, drafts) + [Lock(t)] + [FlushAll(t)],
                  sys.(log := FlushStaged(StageAll(sys.log, t, drafts).(holder := Some(t)), t)))
  {
    StagesAreSteps(sys, t, drafts);
    var staged := sys.(log := StageAll(sys.log, t, drafts));
    LeadsOn(sys, Stages(t, drafts), staged, Lock(t));
    var locked := Next(staged, Lock(t));
    assert locked == sys.(log := staged.log.(holder := Some(t)));
    LeadsOn(sys, Stages(t, drafts) + [Lock(t)], locked, FlushAll(t));
    assert Next(locked, FlushAll(t)) == sys.(log := FlushStaged(locked.log, t));
  }

  lemma {:induction false} StagesAreSteps(sys: Sys, t: int, drafts: seq<Draft>)
    requires t in sys.log.txs
    ensures Leads(sys, Stages(t, drafts), sys.(log := StageAll(sys.log, t, drafts)))
    ensures StageAll(sys.log, t, drafts).holder == sys.log.holder
    decreases |drafts|
  {
    if drafts == [] {
      LeadsNowhere(sys);
    } else {
      var front, last := drafts[..|drafts| - 1], drafts[|drafts| - 1];
      StagesAreSteps(sys, t, front);
      var mid := sys.(log := StageAll(sys.log, t, front));
      LeadsOn(sys, Stages(t, front), mid, Stage(t, last));
      assert Next(mid, Stage(t, last)) == sys.(log := StageOne(mid.log, t, last));
    }
  }

  // ------------------------------------------------------------------ prunes

  /** The count bound is met, and met exactly whenever it is what removed a row. */
  lemma NewestRowsCount(rows: map<int, StreamEvent>, maxEvents: int)
    requires maxEvents > 0
    ensures |NewestRows(rows, maxEvents)| <= maxEvents
    ensures NewestRows(rows, maxEvents) != rows ==> |NewestRows(rows, maxEvents)| == maxEvents
  {
    var kept := NewestRows(rows, maxEvents).Keys;
    if |kept| != 0 {
      var least := Least(kept);
      SubsetSize(kept, Newer(rows, least) + {least});
    }
    var dropped := rows.Keys - kept;
    if |dropped| != 0 {
      var last := Greatest(dropped);
      forall id | id in Newer(rows, last) ensures id in kept { assert id !in dropped; }
      SubsetSize(Newer(rows, last), kept);
    } else {
      forall id | id in rows ensures id in kept { assert id !in dropped; }
      assert NewestRows(rows, maxEvents) == rows;
    }
  }

  /** The cut is by id: what goes is older than all that stays. */
  lemma DroppedAreOlder(rows: map<int, StreamEvent>, maxEvents: int, id: int, other: int)
    requires id in rows && id !in NewestRows(rows, maxEvents) && other in NewestRows(rows, maxEvents)
    ensures id < other
  {
    if other < id { SubsetSize(Newer(rows, id), Newer(rows, other)); }
  }

  /** Of `rows`, the newest are kept: at most `maxEvents`, fewer only when all are, and none older
      than one that is dropped. */
  ghost predicate KeepsNewest(rows: map<int, StreamEvent>, kept: map<int, StreamEvent>, maxEvents: int) {
    && kept.Keys <= rows.Keys && |kept| <= maxEvents
    && (kept == rows || |kept| == maxEvents)
    && (forall id :: id in kept ==> kept[id] == rows[id])
    && (forall id, other :: id in rows && id !in kept && other in kept ==> id < other)
  }

  /** A prune drops what is too old, and of the rest keeps the newest `maxEvents`. */
  lemma PruneKeepsNewest(log: Log, maxAge: int, maxEvents: int)
    requires maxAge > 0 && maxEvents > 0
    ensures KeepsNewest(RecentRows(log.rows, log.clock - maxAge), PrunedRows(log, maxAge, maxEvents), maxEvents)
  {
    var recent := RecentRows(log.rows, log.clock - maxAge);
    var kept := PrunedRows(log, maxAge, maxEvents);
    assert kept == NewestRows(recent, maxEvents);
    assert KeepsNewest(recent, kept, maxEvents) by { NewestRowsKept(recent, maxEvents); }
  }

  lemma NewestRowsKept(rows: map<int, StreamEvent>, maxEvents: int)
    requires maxEvents > 0
    ensures KeepsNewest(rows, NewestRows(rows, maxEvents), maxEvents)
  {
    NewestRowsCount(rows, maxEvents);
    var kept := NewestRows(rows, maxEvents);
    forall id, other | id in rows && id !in kept && other in kept ensures id < other {
      DroppedAreOlder(rows, maxEvents, id, other);
    }
  }

  /** Reading after the cursor a prune returns yields the retained rows and nothing else. */
  lemma ReadAfterPrune(rows: map<int, StreamEvent>, cursor: int, limit: int, batch: seq<int>)
    requires IsPruneCursor(rows, cursor) && limit >= |rows|
    requires IsBatch(rows, cursor, limit, batch)
    ensures forall id :: id in rows <==> id in batch
  {
    AscendingSize(batch);
    var read := Members(batch);
    SubsetSize(read, rows.Keys);
    forall id | id in rows ensures id in batch {
      if id !in batch { SubsetSize(read, rows.Keys - {id}); }
    }
  }
}
