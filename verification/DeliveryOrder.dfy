/**
 End-to-end order of the deliveries from one source account to one inbox. Two orders compete: the
 order in which events are recorded, that is, in which their transactions commit, and the order in
 which they drew their ids. Each is kept under its own condition on commits, and broken otherwise.
 */
module DeliveryOrder {
  import opened Wrappers
  import opened QueueModel
  import opened PollRepair
  import opened PollRepairProofs
  import opened QueueInvariants
  import opened QueueRuns
  import opened QueueLeases

  /** The ordering key of a (source account, inbox) pair. */
  function PairKey(pair: (int, string)): OrderingKey { Delivery(pair.0, Trim(pair.1)) }

  predicate PendingOf(outbox: map<int, OutboxEvent>, pair: (int, string), e: int) {
    e in outbox && outbox[e].Pending() && PairOf(outbox[e]) == Some(pair)
  }

  predicate DraftOf(open: map<int, Draft>, pair: (int, string), e: int) {
    e in open && PairOf(open[e].event) == Some(pair)
  }

  // ------------------------------------------------------------ pending events

  lemma DispatchPending(db: Db, rows: seq<int>, pair: (int, string))
    requires WellFormed(db) && Dispatchable(db, rows) && DispatchRows(db, rows).Ok?
    ensures var db' := DispatchRows(db, rows).value.0;
            && db'.outbox.Keys == db.outbox.Keys && db'.open == db.open
            && forall e :: PendingOf(db'.outbox, pair, e) <==> PendingOf(db.outbox, pair, e) && e !in rows
  {
    DispatchEvolves(db, rows);
  }

  lemma RepairPending(db: Db, q: Request, activation: int, pair: (int, string))
    requires WellFormed(db)
    ensures var db' := Reconcile(db, q, activation).0;
            && db'.outbox.Keys == db.outbox.Keys && db'.open == db.open && db'.nextEventId == db.nextEventId
            && forall e :: PendingOf(db'.outbox, pair, e) ==> PendingOf(db.outbox, pair, e)
  {
    hide Reconcile;
    var db' := Reconcile(db, q, activation).0;
    ReconcileFrame(db, q, activation);
    assert forall e :: e in db.outbox ==> EventOnlyEarlier(db.outbox[e], db'.outbox[e]);
  }

  lemma CancelPending(db: Db, step: Step, pair: (int, string))
    requires Permitted(db, step) && step.Cancel?
    ensures Apply(db, step).outbox.Keys <= db.outbox.Keys
    ensures forall e :: PendingOf(Apply(db, step).outbox, pair, e) ==> PendingOf(db.outbox, pair, e)
  {
    hide Permitted, CancelsJob, CancelsEvent;
    assert Apply(db, step) == CancelRows(db, step.kind, step.cancelKey);
    hide Apply;
  }

  /** Only a commit puts events in line. */
  lemma PendingShrinks(db: Db, step: Step, pair: (int, string))
    requires WellFormed(db) && Enabled(db, step) && !step.Commit?
    ensures Apply(db, step).outbox.Keys <= db.outbox.Keys
    ensures forall e :: PendingOf(Apply(db, step).outbox, pair, e) ==> PendingOf(db.outbox, pair, e)
  {
    assert step.Dispatch? ==> Dispatchable(db, step.rows) && DispatchRows(db, step.rows).Ok?;
    hide WellFormed, Dispatchable, DispatchRows, Reconcile, Waits, Permitted, Apply, Converted, Undisturbed;
    match step
    case Dispatch(rows) =>
      DispatchPending(db, rows, pair);
      DispatchTouches(db, step);
    case Repair(q, activation) =>
      RepairPending(db, q, activation, pair);
      RepairTouches(db, step);
    case Cancel(_, _) => CancelPending(db, step, pair);
    case _ => StepTouches(db, step);
  }

  /** The event joins the pair's line with this commit. */
  predicate Joins(db: Db, t: int, pair: (int, string), w: int) {
    Enters(db, t, w) && PairOf(db.open[w].event) == Some(pair)
  }

  /** The event was in the pair's line and keeps its place in it. */
  predicate Stays(db: Db, t: int, pair: (int, string), a: int) {
    PendingOf(db.outbox, pair, a) && PendingOf(CommitRows(db, t).outbox, pair, a)
  }

  lemma CommitPending(db: Db, t: int, pair: (int, string), e: int)
    requires PendingOf(CommitRows(db, t).outbox, pair, e)
    ensures if Enters(db, t, e) then Joins(db, t, pair, e) else Stays(db, t, pair, e)
  {
  }

  lemma RecordingGrows(recorded: seq<set<int>>, latest: set<int>, e: int)
    ensures Recording(recorded + [latest], e) == if e in latest then |recorded| else Recording(recorded, e)
  {
    assert (recorded + [latest])[..|recorded|] == recorded;
  }

  /** A dispatch takes a pair's oldest pending event, and never two of them at once. */
  lemma DispatchTakesOldest(db: Db, rows: seq<int>, pair: (int, string), i: int, e: int)
    requires Dispatchable(db, rows) && 0 <= i < |rows|
    requires PairOf(db.outbox[rows[i]]) == Some(pair) && PendingOf(db.outbox, pair, e)
    ensures rows[i] <= e
    ensures e in rows ==> e == rows[i]
  {
    assert Selectable(db, rows[i]);
    assert !EarlierPending(db, rows[i], e);
    if e in rows && e != rows[i] {
      var j :| 0 <= j < |rows| && rows[j] == e;
      assert Selectable(db, rows[j]);
      assert EarlierPending(db, rows[j], rows[i]);
    }
  }

  // ------------------------------------------------- the jobs events turn into

  /** The sent job is, and finishes as, a row of the pair's stream. */
  ghost predicate SentToStream(sys: Sys, x: Sent, pair: (int, string)) {
    && (x.job in sys.db.jobs ==> SameStream(DELIVERY_KIND, Some(PairKey(pair)), sys.db.jobs[x.job]))
    && (forall m :: 0 <= m < |sys.settled| && sys.settled[m].id == x.job ==>
          sys.settled[m].kind == DELIVERY_KIND && sys.settled[m].key == Some(PairKey(pair)))
  }

  ghost predicate SentOk(sys: Sys, x: Sent, pair: (int, string)) {
    && x.job < sys.db.nextJobId
    && x.event < sys.db.nextEventId
    && x.recording < |sys.recorded|
    && (x.pair == Some(pair) ==> SentToStream(sys, x, pair))
  }

  ghost predicate JobsInOrder(sent: seq<Sent>) {
    forall m, n :: 0 <= m < n < |sent| ==> sent[m].job < sent[n].job
  }

  ghost predicate JobsInv(sys: Sys, pair: (int, string)) {
    && (forall m :: 0 <= m < |sys.sent| ==> SentOk(sys, sys.sent[m], pair))
    && JobsInOrder(sys.sent)
  }

  lemma SentStays(sys: Sys, step: Step, next: Sys, x: Sent, pair: (int, string))
    requires LeaseInv(sys) && Takes(sys, step, next)
    requires SentOk(sys, x, pair)
    ensures SentOk(next, x, pair)
  {
    hide Permitted, Waits, Apply, WellFormed;
    StepEvolves(sys.db, step);
    StepTouches(sys.db, step);
    SettlingSpends(sys.db, step);
    if x.job in next.db.jobs { assert RowStep(sys.db, x.job, next.db.jobs[x.job]); }
  }

  /** A delivery event with a usable inbox becomes a row of its pair's stream. */
  lemma DeliveredToStream(event: OutboxEvent, job: Job, pair: (int, string))
    requires Delivers(event, job) && PairOf(event) == Some(pair) && Trim(pair.1) != ""
    ensures SameStream(DELIVERY_KIND, Some(PairKey(pair)), job)
  {
  }

  lemma TakenJoinsStream(db: Db, rows: seq<int>, k: nat, pair: (int, string))
    requires WellFormed(db) && Dispatchable(db, rows) && DispatchRows(db, rows).Ok? && k < |rows|
    requires PairOf(db.outbox[rows[k]]) == Some(pair) && Trim(pair.1) != ""
    ensures var db' := DispatchRows(db, rows).value.0;
            && db.nextJobId + k in db'.jobs
            && SameStream(DELIVERY_KIND, Some(PairKey(pair)), db'.jobs[db.nextJobId + k])
  {
    var db' := DispatchRows(db, rows).value.0;
    DispatchEvolves(db, rows);
    var id := db.nextJobId + k;
    assert DeliveredAs(EventsAt(db.outbox, rows)[id - db.nextJobId], id, db'.jobs[id]);
    DeliveredToStream(db.outbox[rows[k]], db'.jobs[id], pair);
  }

  lemma SettledBelow(sys: Sys)
    requires LeaseInv(sys)
    ensures forall m :: 0 <= m < |sys.settled| ==> sys.settled[m].id < sys.db.nextJobId
  {
    assert forall m :: 0 <= m < |sys.settled| ==> Spent(sys.db, sys.settled[m]);
  }

  lemma DispatchCounts(db: Db, rows: seq<int>, k: nat)
    requires WellFormed(db) && Dispatchable(db, rows) && DispatchRows(db, rows).Ok? && k < |rows|
    ensures DispatchRows(db, rows).value.0.nextJobId == db.nextJobId + |rows|
    ensures rows[k] in db.outbox && rows[k] < db.nextEventId == DispatchRows(db, rows).value.0.nextEventId
  {
    DispatchEvolves(db, rows);
    assert Selectable(db, rows[k]);
  }

  lemma NewlySentOk(sys: Sys, rows: seq<int>, next: Sys, k: nat, pair: (int, string))
    requires LeaseInv(sys) && Takes(sys, Dispatch(rows), next) && k < |rows| && Trim(pair.1) != ""
    ensures SentOk(next, Sends(sys.db, sys.recorded, Dispatch(rows))[k], pair)
  {
    hide Waits, DispatchRows, WellFormed, Recording;
    var x := Sends(sys.db, sys.recorded, Dispatch(rows))[k];
    DispatchCounts(sys.db, rows, k);
    assert next.db == DispatchRows(sys.db, rows).value.0 && next.settled == sys.settled;
    SettledBelow(sys);
    if x.pair == Some(pair) { TakenJoinsStream(sys.db, rows, k, pair); }
  }

  lemma JobsInvStep(sys: Sys, step: Step, next: Sys, pair: (int, string))
    requires LeaseInv(sys) && JobsInv(sys, pair) && Takes(sys, step, next) && Trim(pair.1) != ""
    ensures JobsInv(next, pair)
  {
    hide Permitted, Waits, Apply;
    forall m | 0 <= m < |next.sent| ensures SentOk(next, next.sent[m], pair) {
      if m < |sys.sent| {
        SentStays(sys, step, next, sys.sent[m], pair);
      } else {
        NewlySentOk(sys, step.rows, next, m - |sys.sent|, pair);
      }
    }
    assert forall m :: 0 <= m < |sys.sent| ==> SentOk(sys, sys.sent[m], pair);
  }

  lemma {:induction false} RunKeepsJobs(start: Db, run: seq<Step>, states: seq<Sys>, i: nat, pair: (int, string))
    requires WellFormed(start) && IsRun(start, run, states) && i <= |run| && Trim(pair.1) != ""
    ensures JobsInv(states[i], pair)
  {
    if i > 0 {
      RunKeepsJobs(start, run, states, i - 1, pair);
      RunKeepsLeases(start, run, states, i - 1);
      JobsInvStep(states[i - 1], run[i - 1], states[i - 1 + 1], pair);
    }
  }

  /** Two finished rows of the settled history, in the order they finished. */
  ghost predicate FinishedBefore(settled: seq<Settlement>, first: int, second: int) {
    exists m, n :: 0 <= m < n < |settled| && settled[m].Final() && settled[n].Final()
      && settled[m].id == first && settled[n].id == second
  }

  /** A pair's jobs finish in the order they were sent. */
  lemma FinishOrderIsSendOrder(
      start: Db, run: seq<Step>, states: seq<Sys>, i: nat, pair: (int, string), x: Sent, y: Sent)
    requires WellFormed(start) && IsRun(start, run, states) && i <= |run| && Trim(pair.1) != ""
    requires x in states[i].sent && y in states[i].sent && x.pair == Some(pair) && y.pair == Some(pair)
    requires FinishedBefore(states[i].settled, x.job, y.job)
    ensures exists m, n :: 0 <= m < n < |states[i].sent| && states[i].sent[m] == x && states[i].sent[n] == y
  {
    hide WellFormed, Takes;
    RunKeepsJobs(start, run, states, i, pair);
    RunKeepsStreams(start, run, states, i);
    var sys := states[i];
    var m, n :| 0 <= m < n < |sys.settled| && sys.settled[m].Final() && sys.settled[n].Final()
      && sys.settled[m].id == x.job && sys.settled[n].id == y.job;
    assert SentOk(sys, x, pair) && SentOk(sys, y, pair);
    assert SameStreams(sys.settled[m], sys.settled[n]);
    var k :| 0 <= k < |sys.sent| && sys.sent[k] == x;
    var l :| 0 <= l < |sys.sent| && sys.sent[l] == y;
    assert x.job < y.job && k != l;
    assert !(l < k);
  }

  // ------------------------------------------------------------ recording order

  /** Recorded by an earlier commit, or by the same one with a smaller id. */
  predicate Earlier(recording: int, event: int, recording': int, event': int) {
    recording < recording' || (recording == recording' && event < event')
  }

  ghost predicate SentAsRecorded(sent: seq<Sent>, pair: (int, string)) {
    forall m, n | 0 <= m < n < |sent| && sent[m].pair == Some(pair) && sent[n].pair == Some(pair) ::
      Earlier(sent[m].recording, sent[m].event, sent[n].recording, sent[n].event)
  }

  /** In the pair's line, smaller ids were recorded no later. */
  ghost predicate LineInOrder(sys: Sys, pair: (int, string)) {
    forall a, b | PendingOf(sys.db.outbox, pair, a) && PendingOf(sys.db.outbox, pair, b) && a < b ::
      Recording(sys.recorded, a) <= Recording(sys.recorded, b)
  }

  /** Everything in the pair's line was recorded after the sent event. */
  ghost predicate AheadOfLine(sys: Sys, x: Sent, pair: (int, string)) {
    && x.recording < |sys.recorded|
    && forall e :: PendingOf(sys.db.outbox, pair, e) ==> Earlier(x.recording, x.event, Recording(sys.recorded, e), e)
  }

  ghost predicate LineInv(sys: Sys, pair: (int, string)) {
    && LineInOrder(sys, pair)
    && (forall m :: 0 <= m < |sys.sent| && sys.sent[m].pair == Some(pair) ==> AheadOfLine(sys, sys.sent[m], pair))
    && SentAsRecorded(sys.sent, pair)
  }

  /** The commit puts an event in line ahead of one that is already waiting there. */
  predicate Overtakes(db: Db, t: int, pair: (int, string), w: int, a: int) {
    Joins(db, t, pair, w) && Stays(db, t, pair, a) && w < a
  }

  ghost predicate InTurn(db: Db, step: Step, pair: (int, string)) {
    step.Commit? ==> forall w, a :: !Overtakes(db, step.t, pair, w, a)
  }

  lemma LineAfterCommit(sys: Sys, t: int, next: Sys, pair: (int, string))
    requires LineInv(sys, pair) && Takes(sys, Commit(t), next) && InTurn(sys.db, Commit(t), pair)
    ensures LineInv(next, pair)
  {
    var latest := set id | id in sys.db.open && Enters(sys.db, t, id);
    assert next.recorded == sys.recorded + [latest] && next.sent == sys.sent;
    forall e ensures Recording(next.recorded, e) == if e in latest then |sys.recorded| else Recording(sys.recorded, e) {
      RecordingGrows(sys.recorded, latest, e);
    }
    forall e | PendingOf(next.db.outbox, pair, e)
      ensures if e in latest then Joins(sys.db, t, pair, e) else Stays(sys.db, t, pair, e)
    {
      CommitPending(sys.db, t, pair, e);
    }
    forall a, b | PendingOf(next.db.outbox, pair, a) && PendingOf(next.db.outbox, pair, b) && a < b
      ensures Recording(next.recorded, a) <= Recording(next.recorded, b)
    {
      assert !Overtakes(sys.db, t, pair, a, b);
    }
  }

  /** What a dispatch sends of a pair is one event at most, the oldest one waiting. */
  lemma SendsOldest(db: Db, recorded: seq<set<int>>, rows: seq<int>, pair: (int, string), k: nat)
    requires Dispatchable(db, rows) && k < |rows|
    requires Sends(db, recorded, Dispatch(rows))[k].pair == Some(pair)
    ensures PendingOf(db.outbox, pair, rows[k])
    ensures forall e :: PendingOf(db.outbox, pair, e) ==> rows[k] <= e && (e in rows ==> e == rows[k])
  {
    assert Selectable(db, rows[k]);
    forall e | PendingOf(db.outbox, pair, e) ensures rows[k] <= e && (e in rows ==> e == rows[k]) {
      DispatchTakesOldest(db, rows, pair, k, e);
    }
  }

  lemma SendsOnePerPair(db: Db, recorded: seq<set<int>>, rows: seq<int>, pair: (int, string), k: nat, l: nat)
    requires Dispatchable(db, rows) && k < l < |rows|
    ensures Sends(db, recorded, Dispatch(rows))[k].pair != Some(pair)
            || Sends(db, recorded, Dispatch(rows))[l].pair != Some(pair)
  {
    if Sends(db, recorded, Dispatch(rows))[l].pair == Some(pair) {
      SendsOldest(db, recorded, rows, pair, l);
      if Sends(db, recorded, Dispatch(rows))[k].pair == Some(pair) { SendsOldest(db, recorded, rows, pair, k); }
    }
  }

  lemma SendsContinue(sys: Sys, rows: seq<int>, pair: (int, string))
    requires LineInv(sys, pair) && Dispatchable(sys.db, rows)
    ensures SentAsRecorded(sys.sent + Sends(sys.db, sys.recorded, Dispatch(rows)), pair)
  {
    var new' := Sends(sys.db, sys.recorded, Dispatch(rows));
    var all := sys.sent + new';
    forall m, n | 0 <= m < n < |all| && all[m].pair == Some(pair) && all[n].pair == Some(pair)
      ensures Earlier(all[m].recording, all[m].event, all[n].recording, all[n].event)
    {
      if n >= |sys.sent| {
        var l := n - |sys.sent|;
        SendsOldest(sys.db, sys.recorded, rows, pair, l);
        if m >= |sys.sent| { SendsOnePerPair(sys.db, sys.recorded, rows, pair, m - |sys.sent|, l); }
      }
    }
  }

  lemma LineAfterDispatch(sys: Sys, rows: seq<int>, next: Sys, pair: (int, string))
    requires WellFormed(sys.db) && LineInv(sys, pair) && Takes(sys, Dispatch(rows), next)
    ensures LineInv(next, pair)
  {
    hide Waits;
    DispatchPending(sys.db, rows, pair);
    SendsContinue(sys, rows, pair);
    assert next.recorded == sys.recorded && next.db == DispatchRows(sys.db, rows).value.0;
    forall m | 0 <= m < |next.sent| && next.sent[m].pair == Some(pair) ensures AheadOfLine(next, next.sent[m], pair) {
      if m >= |sys.sent| { SendsOldest(sys.db, sys.recorded, rows, pair, m - |sys.sent|); }
    }
  }

  lemma LineUndisturbed(sys: Sys, next: Sys, pair: (int, string))
    requires LineInv(sys, pair) && next.recorded == sys.recorded && next.sent == sys.sent
    requires forall e :: PendingOf(next.db.outbox, pair, e) ==> PendingOf(sys.db.outbox, pair, e)
    ensures LineInv(next, pair)
  {
  }

  lemma LineInvStep(sys: Sys, step: Step, next: Sys, pair: (int, string))
    requires WellFormed(sys.db) && LineInv(sys, pair) && Takes(sys, step, next) && InTurn(sys.db, step, pair)
    ensures LineInv(next, pair)
  {
    hide WellFormed, LineInv, Permitted, Waits, Apply;
    match step
    case Commit(t) => LineAfterCommit(sys, t, next, pair);
    case Dispatch(rows) => LineAfterDispatch(sys, rows, next, pair);
    case _ =>
      PendingShrinks(sys.db, step, pair);
      LineUndisturbed(sys, next, pair);
  }

  lemma {:induction false} RunKeepsLine(start: Db, run: seq<Step>, states: seq<Sys>, i: nat, pair: (int, string))
    requires WellFormed(start) && IsRun(start, run, states) && i <= |run|
    requires forall k :: 0 <= k < i ==> InTurn(states[k].db, run[k], pair)
    ensures LineInv(states[i], pair)
  {
    if i > 0 {
      RunKeepsLine(start, run, states, i - 1, pair);
      RunKeepsLeases(start, run, states, i - 1);
      LineInvStep(states[i - 1], run[i - 1], states[i - 1 + 1], pair);
    }
  }

  /**
   End to end: as long as no commit puts an event of the pair ahead of a waiting one, the pair's
   events become jobs in the order they were recorded and those jobs finish in that order, however
   dispatches, retries, lost leases and other transactions interleave.
   */
  lemma DeliveriesFinishInRecordingOrder(
      start: Db, run: seq<Step>, states: seq<Sys>, i: nat, pair: (int, string))
    requires WellFormed(start) && IsRun(start, run, states) && i <= |run| && Trim(pair.1) != ""
    requires forall k :: 0 <= k < i ==> InTurn(states[k].db, run[k], pair)
    ensures SentAsRecorded(states[i].sent, pair)
    ensures forall x, y | x in states[i].sent && y in states[i].sent && x.pair == Some(pair) && y.pair == Some(pair) ::
              FinishedBefore(states[i].settled, x.job, y.job) ==> Earlier(x.recording, x.event, y.recording, y.event)
  {
    RunKeepsLine(start, run, states, i, pair);
    var sys := states[i];
    forall x, y | x in sys.sent && y in sys.sent && x.pair == Some(pair) && y.pair == Some(pair)
      ensures FinishedBefore(sys.settled, x.job, y.job) ==> Earlier(x.recording, x.event, y.recording, y.event)
    {
      if FinishedBefore(sys.settled, x.job, y.job) { FinishOrderIsSendOrder(start, run, states, i, pair, x, y); }
    }
  }

  predicate IsEntry(x: Sent, pair: (int, string), event: int, recording: int) {
    x.pair == Some(pair) && x.event == event && x.recording == recording
  }

  /** While `w` waits in the line it joined with commit `n`, `a` is not sent; once both are, `w` came first. */
  ghost predicate Overtaken(sys: Sys, pair: (int, string), w: int, n: int, a: int, m: int, from: nat) {
    && from <= |sys.sent| && n < |sys.recorded|
    && (PendingOf(sys.db.outbox, pair, w) && Recording(sys.recorded, w) == n ==>
          forall p :: from <= p < |sys.sent| ==> !IsEntry(sys.sent[p], pair, a, m))
    && (forall p, q | from <= p < |sys.sent| && from <= q < |sys.sent| ::
          IsEntry(sys.sent[p], pair, a, m) && IsEntry(sys.sent[q], pair, w, n) ==> q < p)
  }

  /** While `w` waits no dispatch takes `a`; and what it takes as `w` was waiting. */
  lemma DispatchHeedsWaiting(
      db: Db, recorded: seq<set<int>>, rows: seq<int>, pair: (int, string), w: int, n: int, a: int, m: int, k: nat)
    requires Dispatchable(db, rows) && k < |rows| && w < a
    ensures var x := Sends(db, recorded, Dispatch(rows))[k];
            && (IsEntry(x, pair, a, m) ==> !PendingOf(db.outbox, pair, w))
            && (IsEntry(x, pair, w, n) ==> PendingOf(db.outbox, pair, w) && Recording(recorded, w) == n && w in rows)
  {
    if Sends(db, recorded, Dispatch(rows))[k].pair == Some(pair) { SendsOldest(db, recorded, rows, pair, k); }
  }

  lemma OvertakenDispatch(
      sys: Sys, rows: seq<int>, next: Sys, pair: (int, string), w: int, n: int, a: int, m: int, from: nat)
    requires WellFormed(sys.db) && Takes(sys, Dispatch(rows), next) && w < a
    requires Overtaken(sys, pair, w, n, a, m, from)
    ensures Overtaken(next, pair, w, n, a, m, from)
  {
    DispatchPending(sys.db, rows, pair);
    var new' := Sends(sys.db, sys.recorded, Dispatch(rows));
    forall k | 0 <= k < |new'|
      ensures IsEntry(new'[k], pair, a, m) ==> !PendingOf(sys.db.outbox, pair, w)
      ensures IsEntry(new'[k], pair, w, n) ==> PendingOf(sys.db.outbox, pair, w) && Recording(sys.recorded, w) == n
    {
      DispatchHeedsWaiting(sys.db, sys.recorded, rows, pair, w, n, a, m, k);
    }
    var waits := PendingOf(sys.db.outbox, pair, w) && Recording(sys.recorded, w) == n;
    OvertakenSends(sys.sent, new', pair, w, n, a, m, from, waits);
    assert next.sent == sys.sent + new' && next.recorded == sys.recorded;
    assert next.db == DispatchRows(sys.db, rows).value.0;
  }

  lemma OvertakenSends(
      sent: seq<Sent>, new': seq<Sent>, pair: (int, string), w: int, n: int, a: int, m: int, from: nat, waits: bool)
    requires from <= |sent|
    requires waits ==> forall p :: from <= p < |sent| ==> !IsEntry(sent[p], pair, a, m)
    requires forall p, q | from <= p < |sent| && from <= q < |sent| ::
               IsEntry(sent[p], pair, a, m) && IsEntry(sent[q], pair, w, n) ==> q < p
    requires forall k :: 0 <= k < |new'| ==>
               (waits ==> !IsEntry(new'[k], pair, a, m)) && (IsEntry(new'[k], pair, w, n) ==> waits)
    ensures var all := sent + new';
            && (waits ==> forall p :: from <= p < |all| ==> !IsEntry(all[p], pair, a, m))
            && (forall p, q | from <= p < |all| && from <= q < |all| ::
                  IsEntry(all[p], pair, a, m) && IsEntry(all[q], pair, w, n) ==> q < p)
  {
  }

  lemma OvertakenCommit(
      sys: Sys, t: int, next: Sys, pair: (int, string), w: int, n: int, a: int, m: int, from: nat)
    requires Takes(sys, Commit(t), next) && Overtaken(sys, pair, w, n, a, m, from)
    ensures Overtaken(next, pair, w, n, a, m, from)
  {
    assert next.sent == sys.sent;
    RecordingGrows(sys.recorded, NewInLine(sys.db, Commit(t))[0], w);
    if PendingOf(next.db.outbox, pair, w) { CommitPending(sys.db, t, pair, w); }
  }

  lemma OvertakenStep(
      sys: Sys, step: Step, next: Sys, pair: (int, string), w: int, n: int, a: int, m: int, from: nat)
    requires WellFormed(sys.db) && Takes(sys, step, next) && w < a
    requires Overtaken(sys, pair, w, n, a, m, from)
    ensures Overtaken(next, pair, w, n, a, m, from)
  {
    hide WellFormed, Overtaken, Permitted, Waits, Apply;
    match step
    case Dispatch(rows) => OvertakenDispatch(sys, rows, next, pair, w, n, a, m, from);
    case Commit(t) => OvertakenCommit(sys, t, next, pair, w, n, a, m, from);
    case _ =>
      PendingShrinks(sys.db, step, pair);
      OvertakenUndisturbed(sys, next, pair, w, n, a, m, from);
  }

  lemma OvertakenUndisturbed(sys: Sys, next: Sys, pair: (int, string), w: int, n: int, a: int, m: int, from: nat)
    requires Overtaken(sys, pair, w, n, a, m, from) && next.sent == sys.sent && next.recorded == sys.recorded
    requires PendingOf(next.db.outbox, pair, w) ==> PendingOf(sys.db.outbox, pair, w)
    ensures Overtaken(next, pair, w, n, a, m, from)
  {
  }

  lemma {:induction false} OvertakenRun(
      start: Db, run: seq<Step>, states: seq<Sys>, i: nat, j: nat, pair: (int, string), w: int, a: int)
    requires WellFormed(start) && IsRun(start, run, states) && i < j <= |run|
    requires run[i].Commit? && Overtakes(states[i].db, run[i].t, pair, w, a)
    ensures Overtaken(states[j], pair, w, |states[i].recorded|, a, Recording(states[i].recorded, a), |states[i].sent|)
    decreases j
  {
    hide Permitted, Waits, Apply, WellFormed;
    var n, m, from := |states[i].recorded|, Recording(states[i].recorded, a), |states[i].sent|;
    RunKeepsLeases(start, run, states, j - 1);
    assert Takes(states[j - 1], run[j - 1], states[j - 1 + 1]);
    if i + 1 < j {
      OvertakenRun(start, run, states, i, j - 1, pair, w, a);
      OvertakenStep(states[j - 1], run[j - 1], states[j], pair, w, n, a, m, from);
    }
  }

  /**
   The condition is exact: after a commit that puts `w` ahead of the waiting `a`, every continuation
   in which both of them are sent sends `w` first, although `a` was recorded first.
   */
  lemma OvertakingBreaksRecordingOrder(
      start: Db, run: seq<Step>, states: seq<Sys>, i: nat, j: nat, pair: (int, string), w: int, a: int, p: nat, q: nat)
    requires WellFormed(start) && IsRun(start, run, states) && i < j <= |run|
    requires run[i].Commit? && Overtakes(states[i].db, run[i].t, pair, w, a)
    requires |states[i].sent| <= p < |states[j].sent| && |states[i].sent| <= q < |states[j].sent|
    requires IsEntry(states[j].sent[p], pair, a, Recording(states[i].recorded, a))
    requires IsEntry(states[j].sent[q], pair, w, |states[i].recorded|)
    ensures q < p && !SentAsRecorded(states[j].sent, pair)
  {
    OvertakenRun(start, run, states, i, j, pair, w, a);
  }

  // ----------------------------------------------------------------- draw order

  ghost predicate SentAsDrawn(sent: seq<Sent>, pair: (int, string)) {
    forall m, n | 0 <= m < n < |sent| && sent[m].pair == Some(pair) && sent[n].pair == Some(pair) ::
      sent[m].event < sent[n].event
  }

  ghost predicate DrawInv(sys: Sys, pair: (int, string)) {
    && (forall m, e :: 0 <= m < |sys.sent| && sys.sent[m].pair == Some(pair) && PendingOf(sys.db.outbox, pair, e) ==>
          sys.sent[m].event < e)
    && SentAsDrawn(sys.sent, pair)
  }

  /** The commit puts an event in line at or below one that was already sent. */
  predicate Late(sys: Sys, t: int, pair: (int, string), w: int, m: int) {
    Joins(sys.db, t, pair, w) && 0 <= m < |sys.sent| && sys.sent[m].pair == Some(pair) && w <= sys.sent[m].event
  }

  ghost predicate InTime(sys: Sys, step: Step, pair: (int, string)) {
    step.Commit? ==> forall w, m :: !Late(sys, step.t, pair, w, m)
  }

  lemma DrawSendsContinue(sys: Sys, rows: seq<int>, pair: (int, string))
    requires DrawInv(sys, pair) && Dispatchable(sys.db, rows)
    ensures SentAsDrawn(sys.sent + Sends(sys.db, sys.recorded, Dispatch(rows)), pair)
  {
    var all := sys.sent + Sends(sys.db, sys.recorded, Dispatch(rows));
    forall m, n | 0 <= m < n < |all| && all[m].pair == Some(pair) && all[n].pair == Some(pair)
      ensures all[m].event < all[n].event
    {
      if n >= |sys.sent| {
        var l := n - |sys.sent|;
        SendsOldest(sys.db, sys.recorded, rows, pair, l);
        if m >= |sys.sent| { SendsOnePerPair(sys.db, sys.recorded, rows, pair, m - |sys.sent|, l); }
      }
    }
  }

  lemma DrawsAfterDispatch(sys: Sys, rows: seq<int>, next: Sys, pair: (int, string))
    requires WellFormed(sys.db) && DrawInv(sys, pair) && Takes(sys, Dispatch(rows), next)
    ensures DrawInv(next, pair)
  {
    hide Waits;
    DispatchPending(sys.db, rows, pair);
    DrawSendsContinue(sys, rows, pair);
    forall m, e | 0 <= m < |next.sent| && next.sent[m].pair == Some(pair) && PendingOf(next.db.outbox, pair, e)
      ensures next.sent[m].event < e
    {
      if m >= |sys.sent| { SendsOldest(sys.db, sys.recorded, rows, pair, m - |sys.sent|); }
    }
  }

  lemma DrawsAfterCommit(sys: Sys, t: int, next: Sys, pair: (int, string))
    requires DrawInv(sys, pair) && Takes(sys, Commit(t), next) && InTime(sys, Commit(t), pair)
    ensures DrawInv(next, pair)
  {
    assert next.sent == sys.sent;
    forall m, e | 0 <= m < |next.sent| && next.sent[m].pair == Some(pair) && PendingOf(next.db.outbox, pair, e)
      ensures next.sent[m].event < e
    {
      CommitPending(sys.db, t, pair, e);
      assert !Late(sys, t, pair, e, m);
    }
  }

  lemma DrawInvStep(sys: Sys, step: Step, next: Sys, pair: (int, string))
    requires WellFormed(sys.db) && DrawInv(sys, pair) && Takes(sys, step, next) && InTime(sys, step, pair)
    ensures DrawInv(next, pair)
  {
    hide WellFormed, InTime, Permitted, Waits, Apply;
    match step
    case Dispatch(rows) => DrawsAfterDispatch(sys, rows, next, pair);
    case Commit(t) => DrawsAfterCommit(sys, t, next, pair);
    case _ =>
      PendingShrinks(sys.db, step, pair);
      assert next.sent == sys.sent;
  }

  lemma {:induction false} RunKeepsDraws(start: Db, run: seq<Step>, states: seq<Sys>, i: nat, pair: (int, string))
    requires WellFormed(start) && IsRun(start, run, states) && i <= |run|
    requires forall k :: 0 <= k < i ==> InTime(states[k], run[k], pair)
    ensures DrawInv(states[i], pair)
  {
    if i > 0 {
      RunKeepsDraws(start, run, states, i - 1, pair);
      RunKeepsLeases(start, run, states, i - 1);
      DrawInvStep(states[i - 1], run[i - 1], states[i - 1 + 1], pair);
    }
  }

  /** As long as no commit comes late, the pair's jobs are made and finish in the order of their events' ids. */
  lemma DeliveriesFinishInDrawOrder(
      start: Db, run: seq<Step>, states: seq<Sys>, i: nat, pair: (int, string))
    requires WellFormed(start) && IsRun(start, run, states) && i <= |run| && Trim(pair.1) != ""
    requires forall k :: 0 <= k < i ==> InTime(states[k], run[k], pair)
    ensures SentAsDrawn(states[i].sent, pair)
    ensures forall x, y | x in states[i].sent && y in states[i].sent && x.pair == Some(pair) && y.pair == Some(pair) ::
              FinishedBefore(states[i].settled, x.job, y.job) ==> x.event < y.event
  {
    RunKeepsDraws(start, run, states, i, pair);
    var sys := states[i];
    forall x, y | x in sys.sent && y in sys.sent && x.pair == Some(pair) && y.pair == Some(pair)
      ensures FinishedBefore(sys.settled, x.job, y.job) ==> x.event < y.event
    {
      if FinishedBefore(sys.settled, x.job, y.job) { FinishOrderIsSendOrder(start, run, states, i, pair, x, y); }
    }
  }

  lemma {:induction false} SentGrows(start: Db, run: seq<Step>, states: seq<Sys>, i: nat, j: nat)
    requires IsRun(start, run, states) && i <= j <= |run|
    ensures states[i].sent <= states[j].sent
  {
    if i < j {
      SentGrows(start, run, states, i, j - 1);
      assert Takes(states[j - 1], run[j - 1], states[j - 1 + 1]);
    }
  }

  /** And this condition is exact too: an event that comes in late is sent out of order if at all. */
  lemma LatenessBreaksDrawOrder(
      start: Db, run: seq<Step>, states: seq<Sys>, i: nat, j: nat, pair: (int, string), w: int, m: int, q: nat)
    requires IsRun(start, run, states) && i < j <= |run|
    requires run[i].Commit? && Late(states[i], run[i].t, pair, w, m)
    requires |states[i].sent| <= q < |states[j].sent| && states[j].sent[q].pair == Some(pair) && states[j].sent[q].event == w
    ensures !SentAsDrawn(states[j].sent, pair)
  {
    SentGrows(start, run, states, i, j);
    assert states[j].sent[m] == states[i].sent[m];
  }

  // ------------------------------------------------- write-once, committed in draw order

  /** The pair's events are recorded write-once, and none commits while a smaller one is uncommitted. */
  ghost predicate InStep(db: Db, step: Step, pair: (int, string)) {
    && (step.Record? ==> PairOf(EventOf(step.spec)) != Some(pair))
    && (step.Commit? ==>
          forall w, d | DraftOf(db.open, pair, w) && DraftOf(db.open, pair, d) ::
            db.open[w].tx == step.t && db.open[d].tx != step.t ==> w < d)
  }

  /** Whatever is uncommitted is a new row above all that the pair ever had in line. */
  ghost predicate DraftsAbove(sys: Sys, pair: (int, string)) {
    && (forall m :: 0 <= m < |sys.sent| ==> sys.sent[m].event < sys.db.nextEventId)
    && forall d :: DraftOf(sys.db.open, pair, d) ==>
         && d !in sys.db.outbox
         && (forall e :: PendingOf(sys.db.outbox, pair, e) ==> e < d)
         && (forall m :: 0 <= m < |sys.sent| && sys.sent[m].pair == Some(pair) ==> sys.sent[m].event < d)
  }

  lemma InStepIsInTurnAndInTime(sys: Sys, step: Step, pair: (int, string))
    requires DraftsAbove(sys, pair) && InStep(sys.db, step, pair)
    ensures InTurn(sys.db, step, pair) && InTime(sys, step, pair)
  {
    if step.Commit? {
      forall w, a ensures !Overtakes(sys.db, step.t, pair, w, a) {
        assert Joins(sys.db, step.t, pair, w) ==> DraftOf(sys.db.open, pair, w);
      }
      forall w, m ensures !Late(sys, step.t, pair, w, m) {
        assert Joins(sys.db, step.t, pair, w) ==> DraftOf(sys.db.open, pair, w);
      }
    }
  }

  lemma DraftsAfterRecording(sys: Sys, step: Step, next: Sys, pair: (int, string))
    requires WellFormed(sys.db) && DraftsAbove(sys, pair) && Takes(sys, step, next) && InStep(sys.db, step, pair)
    requires step.Record? || step.RecordOnce?
    ensures DraftsAbove(next, pair)
  {
    RecordingDrafts(sys.db, step, pair);
    assert next.db == Apply(sys.db, step) && next.sent == sys.sent;
  }

  lemma RecordingDrafts(db: Db, step: Step, pair: (int, string))
    requires Enabled(db, step) && InStep(db, step, pair) && (step.Record? || step.RecordOnce?)
    ensures Apply(db, step).outbox == db.outbox && Apply(db, step).nextEventId == db.nextEventId + 1
    ensures forall d :: DraftOf(Apply(db, step).open, pair, d) ==> DraftOf(db.open, pair, d) || d == db.nextEventId
  {
    match step
    case Record(t, spec) => RecordDrafts(db, t, spec, pair);
    case RecordOnce(t, spec) => RecordOnceDrafts(db, t, spec, pair);
  }

  lemma RecordDrafts(db: Db, t: int, spec: JobSpec, pair: (int, string))
    requires PairOf(EventOf(spec)) != Some(pair)
    ensures var db' := RecordRow(db, t, spec).0;
            && db' == db.(open := db'.open, nextEventId := db.nextEventId + 1)
            && forall d :: DraftOf(db'.open, pair, d) ==> DraftOf(db.open, pair, d)
  {
  }

  lemma RecordOnceDrafts(db: Db, t: int, spec: JobSpec, pair: (int, string))
    ensures var db' := RecordOnceRow(db, t, spec).0;
            && db' == db.(open := db'.open, nextEventId := db.nextEventId + 1)
            && forall d :: DraftOf(db'.open, pair, d) ==> DraftOf(db.open, pair, d) || d == db.nextEventId
  {
  }

  lemma DraftsAfterCommit(sys: Sys, t: int, next: Sys, pair: (int, string))
    requires DraftsAbove(sys, pair) && Takes(sys, Commit(t), next) && InStep(sys.db, Commit(t), pair)
    ensures DraftsAbove(next, pair)
  {
    assert next.sent == sys.sent;
    forall d | DraftOf(next.db.open, pair, d)
      ensures d !in next.db.outbox
      ensures forall e :: PendingOf(next.db.outbox, pair, e) ==> e < d
    {
      assert DraftOf(sys.db.open, pair, d) && sys.db.open[d].tx != t;
      forall e | PendingOf(next.db.outbox, pair, e) ensures e < d {
        CommitPending(sys.db, t, pair, e);
        if Joins(sys.db, t, pair, e) { assert DraftOf(sys.db.open, pair, e); }
      }
    }
  }

  lemma DraftsAfterDispatch(sys: Sys, rows: seq<int>, next: Sys, pair: (int, string))
    requires WellFormed(sys.db) && DraftsAbove(sys, pair) && Takes(sys, Dispatch(rows), next)
    ensures DraftsAbove(next, pair)
  {
    DispatchPending(sys.db, rows, pair);
    StepTouches(sys.db, Dispatch(rows));
    forall m | |sys.sent| <= m < |next.sent|
      ensures next.sent[m].event < sys.db.nextEventId
      ensures next.sent[m].pair == Some(pair) ==> PendingOf(sys.db.outbox, pair, next.sent[m].event)
    {
      assert Selectable(sys.db, rows[m - |sys.sent|]);
    }
  }

  lemma DraftsUndisturbed(sys: Sys, step: Step, next: Sys, pair: (int, string))
    requires WellFormed(sys.db) && DraftsAbove(sys, pair) && Takes(sys, step, next)
    requires !step.Record? && !step.RecordOnce? && !step.Commit? && !step.Dispatch?
    ensures DraftsAbove(next, pair)
  {
    PendingShrinks(sys.db, step, pair);
    StepTouches(sys.db, step);
    OpenShrinks(sys.db, step);
    assert next.sent == sys.sent;
    assert forall d :: DraftOf(next.db.open, pair, d) ==> DraftOf(sys.db.open, pair, d);
  }

  lemma OpenShrinks(db: Db, step: Step)
    requires WellFormed(db) && Enabled(db, step)
    requires !step.Record? && !step.RecordOnce? && !step.Commit? && !step.Dispatch?
    ensures forall d :: d in Apply(db, step).open ==> d in db.open && Apply(db, step).open[d] == db.open[d]
  {
    hide WellFormed, Waits, Permitted, Apply;
    StepTouches(db, step);
    if step.Abort? { AbortShrinks(db, step); }
  }

  lemma AbortShrinks(db: Db, step: Step)
    requires Permitted(db, step) && step.Abort?
    ensures forall d :: d in Apply(db, step).open ==> d in db.open && Apply(db, step).open[d] == db.open[d]
  {
    hide Permitted;
    assert Apply(db, step) == AbortRows(db, step.t);
    hide Apply;
  }

  lemma DraftsAboveStep(sys: Sys, step: Step, next: Sys, pair: (int, string))
    requires WellFormed(sys.db) && DraftsAbove(sys, pair) && Takes(sys, step, next) && InStep(sys.db, step, pair)
    ensures DraftsAbove(next, pair)
  {
    hide WellFormed, DraftsAbove, InStep, Permitted, Waits, Apply;
    match step
    case Record(_, _) => DraftsAfterRecording(sys, step, next, pair);
    case RecordOnce(_, _) => DraftsAfterRecording(sys, step, next, pair);
    case Commit(t) => DraftsAfterCommit(sys, t, next, pair);
    case Dispatch(rows) => DraftsAfterDispatch(sys, rows, next, pair);
    case _ => DraftsUndisturbed(sys, step, next, pair);
  }

  lemma {:induction false} RunKeepsDrafts(start: Db, run: seq<Step>, states: seq<Sys>, i: nat, pair: (int, string))
    requires WellFormed(start) && IsRun(start, run, states) && i <= |run|
    requires forall d :: !DraftOf(start.open, pair, d)
    requires forall k :: 0 <= k < i ==> InStep(states[k].db, run[k], pair)
    ensures DraftsAbove(states[i], pair)
    ensures forall k :: 0 <= k < i ==> InTurn(states[k].db, run[k], pair) && InTime(states[k], run[k], pair)
  {
    if i > 0 {
      RunKeepsDrafts(start, run, states, i - 1, pair);
      RunKeepsLeases(start, run, states, i - 1);
      var sys, step, next := states[i - 1], run[i - 1], states[i];
      assert Takes(states[i - 1], run[i - 1], states[i - 1 + 1]);
      InStepIsInTurnAndInTime(sys, step, pair);
      DraftsAboveStep(sys, step, next, pair);
    }
  }

  /**
   For events recorded with the write-once form, in transactions none of which commits while a
   smaller id of the pair is uncommitted, both orders hold: ids, recordings, jobs and finishes agree.
   */
  lemma WriteOnceInStepKeepsBothOrders(
      start: Db, run: seq<Step>, states: seq<Sys>, i: nat, pair: (int, string))
    requires WellFormed(start) && IsRun(start, run, states) && i <= |run| && Trim(pair.1) != ""
    requires forall d :: !DraftOf(start.open, pair, d)
    requires forall k :: 0 <= k < i ==> InStep(states[k].db, run[k], pair)
    ensures SentAsRecorded(states[i].sent, pair) && SentAsDrawn(states[i].sent, pair)
    ensures forall x, y | x in states[i].sent && y in states[i].sent && x.pair == Some(pair) && y.pair == Some(pair) ::
              FinishedBefore(states[i].settled, x.job, y.job) ==>
                x.event < y.event && Earlier(x.recording, x.event, y.recording, y.event)
  {
    RunKeepsDrafts(start, run, states, i, pair);
    DeliveriesFinishInRecordingOrder(start, run, states, i, pair);
    DeliveriesFinishInDrawOrder(start, run, states, i, pair);
  }
}
