/**
 What becomes of one recorded event, told in the event's own fields: what a recording writes and
 answers, which statement may change or remove an event, and what follows over whole runs.
 */
module OutboxHistory {
  import opened Wrappers
  import opened QueueModel
  import opened PollRepair
  import opened PollRepairProofs
  import opened QueueInvariants
  import opened QueueRuns
  import opened QueueLeases

  // --------------------------------------------------------------- recording

  predicate Carries(event: OutboxEvent, kind: string, key: Option<string>) {
    key.Some? && event.kind == kind && event.logicalKey == key
  }

  /** Some event of this kind and key has been recorded, committed or not. */
  predicate Recorded(db: Db, kind: string, key: Option<string>) {
    || (exists e :: e in db.outbox && Carries(db.outbox[e], kind, key))
    || (exists e :: e in db.open && Carries(db.open[e].event, kind, key))
  }

  /** A pending event that says everything the specification does. */
  predicate Records(event: OutboxEvent, spec: JobSpec) {
    && event.kind == spec.kind && event.logicalKey == spec.logicalKey && event.dispatchedAt == None
    && event.payload.Payload?
    && ParseLane(event.payload.lane) == Some(spec.lane)
    && event.payload.args == spec.args && event.payload.runAt == spec.runAt
    && event.payload.maxAttempts == spec.maxAttempts
  }

  lemma HolderExists(db: Db, kind: string, key: Option<string>)
    ensures RecordHolder(db, kind, key).Some? <==> Recorded(db, kind, key)
  {
    if e :| e in db.outbox && Carries(db.outbox[e], kind, key) { assert HasEventKey(db.outbox, e, kind, key.value); }
    if e :| e in db.open && Carries(db.open[e].event, kind, key) { assert DraftsKey(db.open, e, kind, key.value); }
  }

  /** A write-once recording answers true exactly when the key is new (or there is none). Then it has
      drawn one event with the specification, and otherwise it has only used up an id. */
  lemma RecordOnceTells(db: Db, t: int, spec: JobSpec)
    ensures var (db', told) := RecordOnceRow(db, t, spec);
            && (told <==> !Recorded(db, spec.kind, spec.logicalKey))
            && (told ==> db.nextEventId in db'.open && db'.open[db.nextEventId].tx == t
                         && Records(db'.open[db.nextEventId].event, spec)
                         && db'.open == db.open[db.nextEventId := db'.open[db.nextEventId]])
            && (!told ==> db'.open == db.open)
            && db' == db.(open := db'.open, nextEventId := db.nextEventId + 1)
  {
    HolderExists(db, spec.kind, spec.logicalKey);
    hide RecordHolder;
  }

  /** A rearming recording answers with the event it wrote: the one of that key, or else a new one. */
  lemma RecordTells(db: Db, t: int, spec: JobSpec)
    ensures var (db', e) := RecordRow(db, t, spec);
            && e in db'.open && db'.open[e].tx == t && Records(db'.open[e].event, spec)
            && db'.open == db.open[e := db'.open[e]]
            && (if Recorded(db, spec.kind, spec.logicalKey)
                then (e in db.open && Carries(db.open[e].event, spec.kind, spec.logicalKey))
                     || (e in db.outbox && Carries(db.outbox[e], spec.kind, spec.logicalKey))
                else e == db.nextEventId)
            && db' == db.(open := db'.open, nextEventId := db.nextEventId + 1)
  {
    HolderExists(db, spec.kind, spec.logicalKey);
  }

  /** The rows a dispatch cannot turn into jobs: no payload, a lane that does not exist, or a number
      of attempts that is not positive or does not fit 32 bits. */
  lemma MalformedMeans(event: OutboxEvent)
    ensures OutboxSpec(event).Err? <==>
              || event.payload == Malformed
              || event.payload.lane !in {"ingress", "core", "push", "pull", "mail", "maintenance"}
              || !(0 < event.payload.maxAttempts < 0x8000_0000)
  {
  }

  /** Trimming takes away all the white space at both ends and nothing else. */
  lemma {:induction false} TrimStrips(text: string) returns (left: string, right: string)
    ensures text == left + Trim(text) + right
    ensures forall i :: 0 <= i < |left| ==> IsWhitespace(left[i])
    ensures forall i :: 0 <= i < |right| ==> IsWhitespace(right[i])
    ensures var core := Trim(text); core == "" || (!IsWhitespace(core[0]) && !IsWhitespace(core[|core| - 1]))
    decreases |text|
  {
    if text == [] {
      left, right := "", "";
    } else if IsWhitespace(text[0]) {
      left, right := TrimStrips(text[1..]);
      left := [text[0]] + left;
      assert text == [text[0]] + text[1..];
    } else if IsWhitespace(text[|text| - 1]) {
      left, right := TrimStrips(text[..|text| - 1]);
      right := right + [text[|text| - 1]];
      assert text == text[..|text| - 1] + [text[|text| - 1]];
    } else {
      left, right := "", "";
    }
  }

  // --------------------------------------------------------------- selection

  /** Both are deliveries from the same account to the same inbox. */
  predicate SameRoute(a: OutboxEvent, b: OutboxEvent) {
    && a.kind == DELIVERY_KIND && b.kind == DELIVERY_KIND && a.payload.Payload? && b.payload.Payload?
    && a.payload.args.source.Some? && a.payload.args.source == b.payload.args.source
    && a.payload.args.inbox.Some? && a.payload.args.inbox == b.payload.args.inbox
  }

  /** What keeps a pending event from being dispatched: another transaction is rewriting it, it is a
      stream event, a live job has its key, or an earlier delivery on its route is pending. */
  ghost predicate HeldUp(db: Db, e: int)
    requires e in db.outbox
  {
    var event := db.outbox[e];
    || e in db.open
    || event.kind == STREAM_KIND
    || (event.logicalKey.Some?
        && exists id :: id in db.jobs && db.jobs[id].deadAt == None
                        && db.jobs[id].kind == event.kind && db.jobs[id].logicalKey == event.logicalKey)
    || (exists p :: p in db.outbox && p < e && db.outbox[p].dispatchedAt == None && SameRoute(db.outbox[p], event))
  }

  lemma SelectableMeansFree(db: Db, e: int)
    requires e in db.outbox
    ensures Selectable(db, e) <==> db.outbox[e].dispatchedAt == None && !HeldUp(db, e)
  {
    var event := db.outbox[e];
    forall p | p in db.outbox && p < e && db.outbox[p].dispatchedAt == None
      ensures EarlierPending(db, e, p) <==> SameRoute(db.outbox[p], event)
    {
    }
    if event.logicalKey.Some? {
      forall id ensures HoldsKey(db.jobs, id, event.kind, event.logicalKey.value) <==>
                          id in db.jobs && db.jobs[id].deadAt == None
                          && db.jobs[id].kind == event.kind && db.jobs[id].logicalKey == event.logicalKey
      {
      }
    }
  }

  // -------------------------------------------------------------- accounting

  function EventAt(outbox: map<int, OutboxEvent>, e: int): Option<OutboxEvent> {
    if e in outbox then Some(outbox[e]) else None
  }

  /** What a step leaves of a committed event that was there before. */
  ghost predicate Accounted(db: Db, step: Step, e: int, after: Option<OutboxEvent>)
    requires e in db.outbox
  {
    var event := db.outbox[e];
    match step
    case Cancel(kind, key) =>
      after == if event.kind == kind && event.logicalKey == Some(key) && event.dispatchedAt == None
               then None else Some(event)
    case Commit(t) => after == Some(if e in db.open && db.open[e].tx == t then db.open[e].event else event)
    case Dispatch(rows) => after == Some(if e in rows then event.(dispatchedAt := Some(db.clock)) else event)
    case Repair(_, _) =>
      && after.Some?
      && (|| after == Some(event)
          || (&& event.dispatchedAt == None && event.payload.Payload? && after.value.payload.Payload?
              && after.value.payload.runAt < event.payload.runAt
              && after.value == event.(payload := event.payload.(runAt := after.value.payload.runAt))))
    case _ => after == Some(event)
  }

  lemma CancelAccounts(db: Db, step: Step, e: int)
    requires Permitted(db, step) && e in db.outbox && step.Cancel?
    ensures Accounted(db, step, e, EventAt(Apply(db, step).outbox, e))
  {
    hide Permitted;
    assert Apply(db, step) == CancelRows(db, step.kind, step.cancelKey);
    hide Apply;
  }

  lemma CommitAccounts(db: Db, step: Step, e: int)
    requires Permitted(db, step) && e in db.outbox && step.Commit?
    ensures Accounted(db, step, e, EventAt(Apply(db, step).outbox, e))
  {
    hide Permitted;
    assert Apply(db, step) == CommitRows(db, step.t);
    hide Apply;
  }

  lemma DispatchAccounts(db: Db, step: Step, e: int)
    requires WellFormed(db) && Permitted(db, step) && e in db.outbox && step.Dispatch?
    ensures Accounted(db, step, e, EventAt(Apply(db, step).outbox, e))
  {
    hide StreamOrder, LiveKeysUnique, EventKeysUnique, DraftsOk, TablesOk, Reconcile;
    DispatchEvolves(db, step.rows);
    assert Apply(db, step) == DispatchRows(db, step.rows).value.0;
  }

  lemma RepairAccounts(db: Db, step: Step, e: int)
    requires WellFormed(db) && Permitted(db, step) && e in db.outbox && step.Repair?
    ensures Accounted(db, step, e, EventAt(Apply(db, step).outbox, e))
  {
    hide StreamOrder, LiveKeysUnique, EventKeysUnique, DraftsOk, Permitted, Reconcile;
    ReconcileFrame(db, step.q, step.activation);
    var db' := Apply(db, step);
    assert db' == Reconcile(db, step.q, step.activation).0;
    assert EventOnlyEarlier(db.outbox[e], db'.outbox[e]);
  }

  lemma StepAccounts(db: Db, step: Step, e: int)
    requires WellFormed(db) && Enabled(db, step) && e in db.outbox
    ensures Accounted(db, step, e, EventAt(Apply(db, step).outbox, e))
  {
    hide WellFormed, Waits, Permitted, Apply;
    match step
    case Cancel(_, _) => CancelAccounts(db, step, e);
    case Commit(_) => CommitAccounts(db, step, e);
    case Dispatch(_) => DispatchAccounts(db, step, e);
    case Repair(_, _) => RepairAccounts(db, step, e);
    case _ => StepTouches(db, step);
  }

  // -------------------------------------------------------- over whole runs

  /** The event became a job of its kind and key. */
  ghost predicate HandedOver(run: seq<Step>, states: seq<Sys>, k: nat, e: int, kind: string, key: Option<string>) {
    && k + 1 < |states| && k < |run| && run[k].Dispatch? && e in run[k].rows
    && var jobs := states[k + 1].db.jobs;
       exists id :: id in jobs && states[k].db.nextJobId <= id && jobs[id].kind == kind && jobs[id].logicalKey == key
  }

  predicate Cancels(step: Step, kind: string, key: Option<string>) {
    step.Cancel? && step.kind == kind && key == Some(step.cancelKey)
  }

  predicate Waiting(outbox: map<int, OutboxEvent>, e: int, kind: string, key: Option<string>) {
    e in outbox && outbox[e].dispatchedAt == None && outbox[e].kind == kind && outbox[e].logicalKey == key
  }

  lemma TakenBecomesJob(db: Db, rows: seq<int>, e: int)
    requires WellFormed(db) && Dispatchable(db, rows) && DispatchRows(db, rows).Ok? && e in rows && e in db.outbox
    ensures exists id :: id in DispatchRows(db, rows).value.0.jobs && db.nextJobId <= id
                         && DispatchRows(db, rows).value.0.jobs[id].kind == db.outbox[e].kind
                         && DispatchRows(db, rows).value.0.jobs[id].logicalKey == db.outbox[e].logicalKey
  {
    hide WellFormed;
    DispatchEvolves(db, rows);
    var i :| 0 <= i < |rows| && rows[i] == e;
    var db' := DispatchRows(db, rows).value.0;
    assert EventsAt(db.outbox, rows)[i] == db.outbox[e];
    assert DeliveredAs(EventsAt(db.outbox, rows)[db.nextJobId + i - db.nextJobId], db.nextJobId + i, db'.jobs[db.nextJobId + i]);
  }

  lemma WaitingStep(db: Db, step: Step, e: int, kind: string, key: Option<string>)
    requires WellFormed(db) && Enabled(db, step) && Waiting(db.outbox, e, kind, key)
    ensures Waiting(Apply(db, step).outbox, e, kind, key) || Cancels(step, kind, key) || (step.Dispatch? && e in step.rows)
  {
    hide Waits, Permitted, Apply, StreamOrder, LiveKeysUnique, TablesOk;
    StepAccounts(db, step, e);
    if e in db.open { assert Replaces(db.open[e].event, db.outbox[e]); }
  }

  /**
   Nothing recorded is lost: a committed pending event keeps its kind and key and waits, until a
   dispatch turns it into a job of that kind and key, or its key is cancelled.
   */
  lemma {:induction false} NoEventIsLost(
      start: Db, run: seq<Step>, states: seq<Sys>, i: nat, j: nat, e: int, kind: string, key: Option<string>)
    requires WellFormed(start) && IsRun(start, run, states) && i <= j <= |run| && Waiting(states[i].db.outbox, e, kind, key)
    ensures || Waiting(states[j].db.outbox, e, kind, key)
            || exists k: nat :: i <= k < j && (HandedOver(run, states, k, e, kind, key) || Cancels(run[k], kind, key))
    decreases j
  {
    hide Waits, Permitted, Apply, WellFormed;
    if i < j {
      NoEventIsLost(start, run, states, i, j - 1, e, kind, key);
      if Waiting(states[j - 1].db.outbox, e, kind, key) {
        RunKeepsLeases(start, run, states, j - 1);
        assert Takes(states[j - 1], run[j - 1], states[j - 1 + 1]);
        WaitingStep(states[j - 1].db, run[j - 1], e, kind, key);
        if run[j - 1].Dispatch? && e in run[j - 1].rows {
          TakenAt(states[j - 1].db, run[j - 1], e);
          assert HandedOver(run, states, j - 1, e, kind, key);
        }
      }
    }
  }

  lemma TakenAt(db: Db, step: Step, e: int)
    requires WellFormed(db) && Enabled(db, step) && step.Dispatch? && e in step.rows && e in db.outbox
    ensures exists id :: id in Apply(db, step).jobs && db.nextJobId <= id
                         && Apply(db, step).jobs[id].kind == db.outbox[e].kind
                         && Apply(db, step).jobs[id].logicalKey == db.outbox[e].logicalKey
  {
    hide Waits;
    TakenBecomesJob(db, step.rows, e);
    assert Apply(db, step) == DispatchRows(db, step.rows).value.0;
  }

  // --------------------------------------------------------------- only once

  /** The key stands in a committed event, or in one that transaction `t` is about to commit. */
  ghost predicate Known(db: Db, t: int, kind: string, key: Option<string>) {
    || (exists e :: e in db.outbox && Carries(db.outbox[e], kind, key))
    || (exists e :: e in db.open && db.open[e].tx == t && Carries(db.open[e].event, kind, key))
  }

  /** What a step leaves of an uncommitted event. */
  lemma DraftStep(db: Db, step: Step, e: int, t: int, kind: string, key: Option<string>)
    requires WellFormed(db) && Enabled(db, step)
    requires e in db.open && db.open[e].tx == t && Carries(db.open[e].event, kind, key)
    requires !(step.Abort? && step.t == t)
    ensures Known(Apply(db, step), t, kind, key)
  {
    hide Waits, Permitted, Apply, WellFormed;
    match step
    case Record(t', spec) => RedraftKnows(db, step, e, t, kind, key);
    case RecordOnce(t', spec) => RedraftKnows(db, step, e, t, kind, key);
    case Commit(t') => CommitKnows(db, step, e, t, kind, key);
    case _ => OpenStep(db, step, e);
  }

  lemma CommitKnows(db: Db, step: Step, e: int, t: int, kind: string, key: Option<string>)
    requires Permitted(db, step) && step.Commit?
    requires e in db.open && db.open[e].tx == t && Carries(db.open[e].event, kind, key)
    ensures Known(Apply(db, step), t, kind, key)
  {
    hide Permitted;
    var db' := Apply(db, step);
    assert db' == CommitRows(db, step.t);
    hide Apply;
    if step.t == t { assert e in db'.outbox && db'.outbox[e] == db.open[e].event; }
    else { assert e in db'.open && db'.open[e] == db.open[e]; }
  }

  lemma RedraftKnows(db: Db, step: Step, e: int, t: int, kind: string, key: Option<string>)
    requires WellFormed(db) && Enabled(db, step) && (step.Record? || step.RecordOnce?)
    requires e in db.open && db.open[e].tx == t && Carries(db.open[e].event, kind, key)
    ensures Known(Apply(db, step), t, kind, key)
  {
    hide Permitted, WellFormed;
    var db', spec := Apply(db, step), step.spec;
    if step.Record? {
      RedraftKeeps(db, step.t, spec, e);
    } else {
      RecordOnceTells(db, step.t, spec);
      assert e in db'.open && db'.open[e] == db.open[e] by { EventsStandBelow(db, e); }
    }
  }

  lemma EventsStandBelow(db: Db, e: int)
    requires WellFormed(db) && e in db.open
    ensures e < db.nextEventId
  {
    hide StreamOrder, LiveKeysUnique, EventKeysUnique, RowOk;
  }

  /** A rearmed draft keeps its transaction, its kind and its key. */
  lemma RedraftKeeps(db: Db, t: int, spec: JobSpec, e: int)
    requires WellFormed(db) && e in db.open
    requires spec.logicalKey.Some? && DraftsKey(db.open, e, spec.kind, spec.logicalKey.value) ==> db.open[e].tx == t
    ensures var open' := RecordRow(db, t, spec).0.open;
            && e in open' && open'[e].tx == db.open[e].tx
            && open'[e].event.kind == db.open[e].event.kind
            && open'[e].event.logicalKey == db.open[e].event.logicalKey
  {
    EventsStandBelow(db, e);
    RecordTells(db, t, spec);
    hide RecordRow, StreamOrder, LiveKeysUnique, EventKeysUnique, RowOk;
    if RecordRow(db, t, spec).0.open[e] != db.open[e] && e in db.outbox {
      assert Replaces(db.open[e].event, db.outbox[e]);
    }
  }

  lemma OpenStep(db: Db, step: Step, e: int)
    requires WellFormed(db) && Enabled(db, step) && e in db.open
    requires !step.Record? && !step.RecordOnce? && !step.Commit? && !(step.Abort? && step.t == db.open[e].tx)
    ensures e in Apply(db, step).open && Apply(db, step).open[e] == db.open[e]
  {
    hide Waits, Permitted, Apply, WellFormed;
    match step
    case Abort(t) => assert Apply(db, step) == AbortRows(db, t) by { AbortIs(db, step); }
    case _ => StepTouches(db, step);
  }

  lemma AbortIs(db: Db, step: Step)
    requires Permitted(db, step) && step.Abort?
    ensures Apply(db, step) == AbortRows(db, step.t)
  {
    hide Permitted, AbortRows, CommitRows;
  }

  lemma KnownStep(db: Db, step: Step, t: int, kind: string, key: Option<string>)
    requires WellFormed(db) && Enabled(db, step) && Known(db, t, kind, key)
    requires !(step.Abort? && step.t == t) && !Cancels(step, kind, key)
    ensures Known(Apply(db, step), t, kind, key)
  {
    hide Waits, Permitted, Apply;
    if e :| e in db.outbox && Carries(db.outbox[e], kind, key) {
      StepAccounts(db, step, e);
      if e in db.open { assert Replaces(db.open[e].event, db.outbox[e]); }
      assert e in Apply(db, step).outbox && Carries(Apply(db, step).outbox[e], kind, key);
    } else {
      var e :| e in db.open && db.open[e].tx == t && Carries(db.open[e].event, kind, key);
      DraftStep(db, step, e, t, kind, key);
    }
  }

  lemma {:induction false} StaysKnown(
      start: Db, run: seq<Step>, states: seq<Sys>, i: nat, j: nat, t: int, kind: string, key: Option<string>)
    requires WellFormed(start) && IsRun(start, run, states) && i <= j <= |run| && Known(states[i].db, t, kind, key)
    requires forall l :: i <= l < j ==> !(run[l].Abort? && run[l].t == t) && !Cancels(run[l], kind, key)
    ensures Known(states[j].db, t, kind, key)
    decreases j
  {
    hide Waits, Permitted, Apply, WellFormed, Known;
    if i < j {
      StaysKnown(start, run, states, i, j - 1, t, kind, key);
      RunKeepsLeases(start, run, states, j - 1);
      assert Takes(states[j - 1], run[j - 1], states[j - 1 + 1]);
      KnownStep(states[j - 1].db, run[j - 1], t, kind, key);
    }
  }

  /**
   A write-once recording happens once: after a recording of a key, any later one answers false,
   whoever makes it, until the key is cancelled or the recording transaction aborts.
   */
  lemma OnceIsOnce(start: Db, run: seq<Step>, states: seq<Sys>, i: nat, j: nat)
    requires WellFormed(start) && IsRun(start, run, states) && i < j < |run|
    requires run[i].Record? || run[i].RecordOnce?
    requires run[j].RecordOnce? && run[j].spec.kind == run[i].spec.kind
    requires run[i].spec.logicalKey.Some? && run[j].spec.logicalKey == run[i].spec.logicalKey
    requires forall l :: i < l < j ==>
               !(run[l].Abort? && run[l].t == run[i].t) && !Cancels(run[l], run[i].spec.kind, run[i].spec.logicalKey)
    ensures !RecordOnceRow(states[j].db, run[j].t, run[j].spec).1
  {
    hide WellFormed, RecordRow, RecordOnceRow;
    var kind, key := run[i].spec.kind, run[i].spec.logicalKey;
    RunKeepsLeases(start, run, states, i);
    assert Takes(states[i], run[i], states[i + 1]);
    RecordingIsKnown(states[i].db, run[i]);
    StaysKnown(start, run, states, i + 1, j, run[i].t, kind, key);
    RecordOnceTells(states[j].db, run[j].t, run[j].spec);
  }

  lemma RecordingIsKnown(db: Db, step: Step)
    requires WellFormed(db) && Enabled(db, step) && (step.Record? || step.RecordOnce?) && step.spec.logicalKey.Some?
    ensures Known(Apply(db, step), step.t, step.spec.kind, step.spec.logicalKey)
  {
    hide Permitted, StreamOrder, LiveKeysUnique, EventKeysUnique;
    var db', spec := Apply(db, step), step.spec;
    var (recorded, e) := RecordRow(db, step.t, spec);
    var (once, told) := RecordOnceRow(db, step.t, spec);
    RecordTells(db, step.t, spec);
    RecordOnceTells(db, step.t, spec);
    assert db' == if step.Record? then recorded else once;
    hide RecordRow, RecordOnceRow, Apply;
    if step.Record? {
      assert e in db'.open && db'.open[e].tx == step.t && Carries(db'.open[e].event, spec.kind, spec.logicalKey);
    } else if told {
      var n := db.nextEventId;
      assert n in db'.open && db'.open[n].tx == step.t && Carries(db'.open[n].event, spec.kind, spec.logicalKey);
    } else {
      assert db'.outbox == db.outbox && db'.open == db.open;
      if x :| x in db.open && Carries(db.open[x].event, spec.kind, spec.logicalKey) {
        assert DraftsKey(db.open, x, spec.kind, spec.logicalKey.value);
      }
    }
  }
}
