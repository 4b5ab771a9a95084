/** What a transaction's drafts become: staged once per key, inserted once per key, and delivered. */
module StreamWrites {
  import opened StreamLog
  import P = StreamLogProofs

  // ----------------------------------------------------------------- staging

  /** `drafts[i]` is the first of its key, and none of that key was staged before. */
  predicate FirstOfKey(before: seq<Draft>, drafts: seq<Draft>, i: nat)
    requires i < |drafts|
  {
    && (forall k :: 0 <= k < |before| ==> before[k].key != drafts[i].key)
    && (forall k :: 0 <= k < i ==> drafts[k].key != drafts[i].key)
  }

  /** Where the staged drafts from position `from` on come from: one place each, in order. */
  ghost predicate StagedFrom(before: seq<Draft>, drafts: seq<Draft>, after: seq<Draft>, places: seq<int>) {
    && |after| == |before| + |places|
    && after[..|before|] == before
    && (forall j :: 0 <= j < |places| ==>
          0 <= places[j] < |drafts| && FirstOfKey(before, drafts, places[j]) && after[|before| + j] == drafts[places[j]])
    && (forall j, k :: 0 <= j < k < |places| ==> places[j] < places[k])
    && (forall i :: 0 <= i < |drafts| && FirstOfKey(before, drafts, i) ==> i in places)
  }

  lemma HeldKeys(before: seq<Draft>, drafts: seq<Draft>, after: seq<Draft>, places: seq<int>, key: string)
    requires StagedFrom(before, drafts, after, places)
    ensures HasDraft(after, key) <==> HasDraft(before, key) || exists i :: 0 <= i < |drafts| && drafts[i].key == key
  {
    if i :| 0 <= i < |before| && before[i].key == key { assert after[i] == after[..|before|][i]; }
    if i :| 0 <= i < |drafts| && drafts[i].key == key {
      var first := FirstWith(drafts, key, i);
      if !HasDraft(before, key) {
        assert FirstOfKey(before, drafts, first);
        var j :| 0 <= j < |places| && places[j] == first;
        assert after[|before| + j].key == key;
      }
    }
    if i :| 0 <= i < |after| && after[i].key == key {
      if i < |before| { assert before[i] == after[..|before|][i]; }
      else { assert after[|before| + (i - |before|)] == drafts[places[i - |before|]]; }
    }
  }

  lemma {:induction false} FirstWith(drafts: seq<Draft>, key: string, i: nat) returns (first: nat)
    requires i < |drafts| && drafts[i].key == key
    ensures first <= i && drafts[first].key == key && forall k :: 0 <= k < first ==> drafts[k].key != key
    decreases i
  {
    if k :| 0 <= k < i && drafts[k].key == key { first := FirstWith(drafts, key, k); } else { first := i; }
  }

  lemma FirstInFront(before: seq<Draft>, drafts: seq<Draft>, i: nat)
    requires i < |drafts| - 1
    ensures FirstOfKey(before, drafts[..|drafts| - 1], i) <==> FirstOfKey(before, drafts, i)
  {
  }

  lemma PlacesGrow(before: seq<Draft>, drafts: seq<Draft>, mid: seq<Draft>, after: seq<Draft>, front: seq<int>, places: seq<int>)
    requires drafts != [] && StagedFrom(before, drafts[..|drafts| - 1], mid, front)
    requires var last := |drafts| - 1;
             if FirstOfKey(before, drafts, last) then after == mid + [drafts[last]] && places == front + [last]
             else after == mid && places == front
    ensures StagedFrom(before, drafts, after, places)
  {
    var last := |drafts| - 1;
    forall i: nat | i < last { FirstInFront(before, drafts, i); }
    assert forall i :: 0 <= i < last ==> drafts[..last][i] == drafts[i];
    assert after[..|before|] == mid[..|before|];
    assert forall i :: i in front ==> i in places;
    assert FirstOfKey(before, drafts, last) ==> places[|front|] == last;
  }

  /** Staging keeps the first draft of each new key, in order, and nothing else; every draft uses up an id. */
  lemma {:induction false} StagingKeepsFirsts(log: Log, t: int, drafts: seq<Draft>) returns (places: seq<int>)
    requires t in log.txs
    ensures var next := StageAll(log, t, drafts);
            && StagedFrom(log.txs[t].staged, drafts, next.txs[t].staged, places)
            && next == log.(nextId := log.nextId + |drafts|,
                            txs := log.txs[t := log.txs[t].(staged := next.txs[t].staged)])
    decreases |drafts|
  {
    var before := log.txs[t].staged;
    if drafts == [] {
      places := [];
      assert log.txs[t := log.txs[t]] == log.txs;
    } else {
      hide StagedFrom, FirstOfKey, HasDraft, StageAll;
      var last := |drafts| - 1;
      var front := StagingKeepsFirsts(log, t, drafts[..last]);
      var mid, next := StageAll(log, t, drafts[..last]), StageAll(log, t, drafts);
      HeldKeys(before, drafts[..last], mid.txs[t].staged, front, drafts[last].key);
      LastIsFirst(before, drafts);
      places := if FirstOfKey(before, drafts, last) then front + [last] else front;
      assert next == StageOne(mid, t, drafts[last]) by { StageUnfolds(log, t, drafts); }
      PlacesGrow(before, drafts, mid.txs[t].staged, next.txs[t].staged, front, places);
    }
  }

  lemma StageUnfolds(log: Log, t: int, drafts: seq<Draft>)
    requires t in log.txs && drafts != []
    ensures StageAll(log, t, drafts) == StageOne(StageAll(log, t, drafts[..|drafts| - 1]), t, drafts[|drafts| - 1])
  {
    hide StageOne;
  }

  lemma InsertUnfolds(log: Log, t: int, drafts: seq<Draft>)
    requires t in log.txs && drafts != []
    ensures InsertAll(log, t, drafts) == InsertOne(InsertAll(log, t, drafts[..|drafts| - 1]), t, drafts[|drafts| - 1])
  {
    hide InsertOne;
  }

  lemma LastIsFirst(before: seq<Draft>, drafts: seq<Draft>)
    requires drafts != []
    ensures var last := |drafts| - 1;
            FirstOfKey(before, drafts, last) <==>
              !HasDraft(before, drafts[last].key) && !exists i :: 0 <= i < |drafts[..last]| && drafts[..last][i].key == drafts[last].key
  {
    var last := |drafts| - 1;
    assert forall i :: 0 <= i < last ==> drafts[..last][i] == drafts[i];
  }

  // --------------------------------------------------------------- inserting

  /** `drafts[i]` is the first of its key, and no visible row and no insert of its own has that key. */
  predicate NewKey(rows: map<int, StreamEvent>, before: seq<StreamEvent>, drafts: seq<Draft>, i: nat)
    requires i < |drafts|
  {
    && (forall id :: id in rows ==> rows[id].key != drafts[i].key)
    && (forall k :: 0 <= k < |before| ==> before[k].key != drafts[i].key)
    && (forall k :: 0 <= k < i ==> drafts[k].key != drafts[i].key)
  }

  function EventOf(log: Log, drafts: seq<Draft>, i: nat): StreamEvent
    requires i < |drafts|
  {
    StreamEvent(log.nextId + i, drafts[i].key, drafts[i].payload, log.clock)
  }

  /** Which drafts became events, and which events they became. */
  ghost predicate InsertedFrom(log: Log, before: seq<StreamEvent>, drafts: seq<Draft>, after: seq<StreamEvent>, places: seq<int>) {
    && |after| == |before| + |places|
    && after[..|before|] == before
    && (forall j :: 0 <= j < |places| ==>
          && 0 <= places[j] < |drafts| && NewKey(log.rows, before, drafts, places[j])
          && after[|before| + j] == EventOf(log, drafts, places[j]))
    && (forall j, k :: 0 <= j < k < |places| ==> places[j] < places[k])
    && (forall i :: 0 <= i < |drafts| && NewKey(log.rows, before, drafts, i) ==> i in places)
  }

  lemma InsertedKeys(log: Log, before: seq<StreamEvent>, drafts: seq<Draft>, after: seq<StreamEvent>, places: seq<int>, key: string)
    requires InsertedFrom(log, before, drafts, after, places) && !HasRow(log.rows, key)
    ensures HasInserted(after, key) <==> HasInserted(before, key) || exists i :: 0 <= i < |drafts| && drafts[i].key == key
  {
    if i :| 0 <= i < |before| && before[i].key == key { assert after[i] == after[..|before|][i]; }
    if i :| 0 <= i < |drafts| && drafts[i].key == key {
      var first := FirstWith(drafts, key, i);
      if !HasInserted(before, key) {
        assert NewKey(log.rows, before, drafts, first);
        var j :| 0 <= j < |places| && places[j] == first;
        assert after[|before| + j].key == key;
      }
    }
    if i :| 0 <= i < |after| && after[i].key == key {
      if i < |before| { assert before[i] == after[..|before|][i]; }
      else { assert after[|before| + (i - |before|)] == EventOf(log, drafts, places[i - |before|]); }
    }
  }

  lemma NewInFront(rows: map<int, StreamEvent>, before: seq<StreamEvent>, drafts: seq<Draft>, i: nat)
    requires i < |drafts| - 1
    ensures NewKey(rows, before, drafts[..|drafts| - 1], i) <==> NewKey(rows, before, drafts, i)
  {
  }

  lemma InsertsGrow(
      log: Log, before: seq<StreamEvent>, drafts: seq<Draft>, mid: seq<StreamEvent>, after: seq<StreamEvent>,
      front: seq<int>, places: seq<int>)
    requires drafts != [] && InsertedFrom(log, before, drafts[..|drafts| - 1], mid, front)
    requires var last := |drafts| - 1;
             if NewKey(log.rows, before, drafts, last) then after == mid + [EventOf(log, drafts, last)] && places == front + [last]
             else after == mid && places == front
    ensures InsertedFrom(log, before, drafts, after, places)
  {
    var last := |drafts| - 1;
    forall i: nat | i < last { NewInFront(log.rows, before, drafts, i); }
    assert forall i :: 0 <= i < last ==> drafts[..last][i] == drafts[i];
    assert after[..|before|] == mid[..|before|];
    assert forall i :: i in front ==> i in places;
    assert NewKey(log.rows, before, drafts, last) ==> places[|front|] == last;
  }

  lemma LastIsNew(rows: map<int, StreamEvent>, before: seq<StreamEvent>, drafts: seq<Draft>)
    requires drafts != []
    ensures var last := |drafts| - 1;
            NewKey(rows, before, drafts, last) <==>
              && !HasRow(rows, drafts[last].key) && !HasInserted(before, drafts[last].key)
              && !exists i :: 0 <= i < |drafts[..last]| && drafts[..last][i].key == drafts[last].key
  {
    var last := |drafts| - 1;
    assert forall i :: 0 <= i < last ==> drafts[..last][i] == drafts[i];
  }

  /** Inserting turns each draft with a new key into an event with the draft's key and payload, an id
      of its own in the order of the drafts, and the current time; everything else stays. */
  lemma {:induction false} InsertingKeepsDrafts(log: Log, t: int, drafts: seq<Draft>) returns (places: seq<int>)
    requires t in log.txs
    ensures var next := InsertAll(log, t, drafts);
            && InsertedFrom(log, log.txs[t].inserted, drafts, next.txs[t].inserted, places)
            && next == log.(nextId := log.nextId + |drafts|,
                            txs := log.txs[t := log.txs[t].(inserted := next.txs[t].inserted)])
    decreases |drafts|
  {
    var before := log.txs[t].inserted;
    if drafts == [] {
      places := [];
      assert log.txs[t := log.txs[t]] == log.txs;
    } else {
      hide InsertedFrom, NewKey, HasInserted, HasRow, InsertAll;
      var last := |drafts| - 1;
      var front := InsertingKeepsDrafts(log, t, drafts[..last]);
      var mid, next := InsertAll(log, t, drafts[..last]), InsertAll(log, t, drafts);
      if !HasRow(log.rows, drafts[last].key) {
        InsertedKeys(log, before, drafts[..last], mid.txs[t].inserted, front, drafts[last].key);
      }
      LastIsNew(log.rows, before, drafts);
      places := if NewKey(log.rows, before, drafts, last) then front + [last] else front;
      assert next == InsertOne(mid, t, drafts[last]) by { InsertUnfolds(log, t, drafts); }
      InsertsGrow(log, before, drafts, mid.txs[t].inserted, next.txs[t].inserted, front, places);
    }
  }

  /** A flush inserts what is staged and leaves nothing staged. */
  lemma FlushEmptiesStage(log: Log, t: int)
    requires t in log.txs
    ensures FlushStaged(log, t) ==
              InsertAll(log, t, log.txs[t].staged).(txs := log.txs[t := Tx([], InsertAll(log, t, log.txs[t].staged).txs[t].inserted)])
  {
    var places := InsertingKeepsDrafts(log, t, log.txs[t].staged);
  }

  // ---------------------------------------------------------- over whole runs

  ghost predicate InHistory(history: seq<StreamEvent>, key: string) {
    exists i :: 0 <= i < |history| && history[i].key == key
  }

  /** The key is staged in the transaction, or inserted by it, or in the log already. */
  ghost predicate OnItsWay(sys: P.Sys, t: int, key: string) {
    t in sys.log.txs
    && (HasDraft(sys.log.txs[t].staged, key) || HasInserted(sys.log.txs[t].inserted, key) || InHistory(sys.history, key))
  }

  ghost predicate Inserted(sys: P.Sys, t: int, key: string) {
    t in sys.log.txs && (HasInserted(sys.log.txs[t].inserted, key) || InHistory(sys.history, key))
  }

  predicate Ends(step: P.Step, t: int) {
    (step.Begin? && step.t == t) || (step.Commit? && step.t == t) || (step.Abort? && step.t == t)
  }

  lemma HistoryKeeps(a: seq<StreamEvent>, b: seq<StreamEvent>, key: string)
    requires a <= b && InHistory(a, key)
    ensures InHistory(b, key)
  {
    var i :| 0 <= i < |a| && a[i].key == key;
    assert b[i] == a[i];
  }

  lemma InsertKeeps(log: Log, t: int, draft: Draft, key: string)
    requires t in log.txs && (HasInserted(log.txs[t].inserted, key) || draft.key == key)
    ensures HasInserted(InsertOne(log, t, draft).txs[t].inserted, key) || HasRow(log.rows, key)
  {
    var before, after := log.txs[t].inserted, InsertOne(log, t, draft).txs[t].inserted;
    if i :| 0 <= i < |before| && before[i].key == key { assert after[i] == before[i]; }
    else if after != before { assert after[|before|].key == key; }
  }

  /** A flush turns what was staged into inserts, unless the log already has it. */
  lemma FlushInserts(sys: P.Sys, t: int, key: string)
    requires P.LogInv(sys) && P.Enabled(sys, P.FlushAll(t)) && OnItsWay(sys, t, key)
    ensures Inserted(P.Next(sys, P.FlushAll(t)), t, key)
  {
    var log, next := sys.log, P.Next(sys, P.FlushAll(t));
    var drafts, before := log.txs[t].staged, log.txs[t].inserted;
    assert next.history == sys.history;
    FlushEmptiesStage(log, t);
    var places := InsertingKeepsDrafts(log, t, drafts);
    if HasRow(log.rows, key) {
      RowInHistory(sys, key);
    } else {
      InsertedKeys(log, before, drafts, InsertAll(log, t, drafts).txs[t].inserted, places, key);
    }
  }

  lemma RowInHistory(sys: P.Sys, key: string)
    requires P.LogInv(sys) && HasRow(sys.log.rows, key)
    ensures InHistory(sys.history, key)
  {
    var id :| id in sys.log.rows && sys.log.rows[id].key == key;
    var i :| 0 <= i < |sys.history| && sys.history[i] == sys.log.rows[id];
  }

  lemma StageStep(sys: P.Sys, t: int, draft: Draft, key: string)
    requires t in sys.log.txs && (OnItsWay(sys, t, key) || draft.key == key)
    ensures OnItsWay(P.Next(sys, P.Stage(t, draft)), t, key)
  {
    var next := P.Next(sys, P.Stage(t, draft));
    assert next.history == sys.history;
    var before, after := sys.log.txs[t].staged, next.log.txs[t].staged;
    if i :| 0 <= i < |before| && before[i].key == key { assert after[i] == before[i]; }
    else if draft.key == key { assert after != before ==> after[|before|].key == key; }
  }

  lemma WayStep(sys: P.Sys, step: P.Step, t: int, key: string)
    requires P.LogInv(sys) && P.Enabled(sys, step) && !Ends(step, t) && OnItsWay(sys, t, key)
    ensures OnItsWay(P.Next(sys, step), t, key)
    ensures Inserted(sys, t, key) ==> Inserted(P.Next(sys, step), t, key)
  {
    var next := P.Next(sys, step);
    if InHistory(sys.history, key) { HistoryKeeps(sys.history, next.history, key); }
    match step
    case Stage(u, draft) => if u == t { StageStep(sys, t, draft, key); }
    case Insert(u, draft) =>
      if u == t && HasInserted(sys.log.txs[t].inserted, key) {
        InsertKeeps(sys.log, t, draft, key);
        if HasRow(sys.log.rows, key) { RowInHistory(sys, key); HistoryKeeps(sys.history, next.history, key); }
      }
    case FlushAll(u) =>
      if u == t { FlushInserts(sys, t, key); } else { FlushEmptiesStage(sys.log, u); }
    case _ =>
  }

  lemma {:induction false} StaysOnItsWay(clock: int, run: seq<P.Step>, states: seq<P.Sys>, i: nat, j: nat, t: int, key: string)
    requires P.IsRun(P.Empty(clock), run, states) && i <= j <= |run| && OnItsWay(states[i], t, key)
    requires forall l :: i <= l < j ==> !Ends(run[l], t)
    ensures OnItsWay(states[j], t, key)
    ensures Inserted(states[i], t, key) ==> Inserted(states[j], t, key)
    decreases j
  {
    if i < j {
      StaysOnItsWay(clock, run, states, i, j - 1, t, key);
      P.RunKeepsLog(clock, run, states, j - 1);
      assert P.Takes(states[j - 1], run[j - 1], states[j - 1 + 1]);
      WayStep(states[j - 1], run[j - 1], t, key);
    }
  }

  /**
   What is staged is delivered: once a transaction has staged a draft, flushed and committed, the log's
   history holds an event with the draft's key, whatever other transactions and prunes do meanwhile.
   */
  lemma StagedIsDelivered(clock: int, run: seq<P.Step>, states: seq<P.Sys>, i: nat, j: nat, k: nat, t: int, draft: Draft)
    requires P.IsRun(P.Empty(clock), run, states) && i < j < k < |run|
    requires run[i] == P.Stage(t, draft) && run[j] == P.FlushAll(t) && run[k] == P.Commit(t)
    requires forall l :: i < l < k ==> !Ends(run[l], t)
    ensures InHistory(states[k + 1].history, draft.key)
  {
    assert P.Takes(states[i], run[i], states[i + 1]) && P.Takes(states[j], run[j], states[j + 1]);
    assert P.Takes(states[k], run[k], states[k + 1]);
    StageStep(states[i], t, draft, draft.key);
    StaysOnItsWay(clock, run, states, i + 1, j, t, draft.key);
    P.RunKeepsLog(clock, run, states, j);
    FlushInserts(states[j], t, draft.key);
    StaysOnItsWay(clock, run, states, j + 1, k, t, draft.key);
    CommitDelivers(states[k], t, draft.key);
  }

  lemma CommitDelivers(sys: P.Sys, t: int, key: string)
    requires Inserted(sys, t, key)
    ensures InHistory(P.Next(sys, P.Commit(t)).history, key)
  {
    var inserted := sys.log.txs[t].inserted;
    if i :| 0 <= i < |inserted| && inserted[i].key == key {
      assert (sys.history + inserted)[|sys.history| + i] == inserted[i];
    } else {
      HistoryKeeps(sys.history, sys.history + inserted, key);
    }
  }
}
