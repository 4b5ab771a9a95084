/**
 Whole runs of the queue. A run is any sequence of committed statements, interleaved with clock
 ticks; a crashed transaction is a statement that never happened. Recordings are different: they
 draw their ids inside a caller's transaction, which commits or aborts later, in any order.
 Histories record what workers, recorders and dispatchers observed.
 */
module QueueRuns {
  import opened Wrappers
  import opened QueueModel
  import opened PollRepair
  import opened PollRepairProofs
  import opened QueueInvariants

  datatype Step =
    | Tick(elapsed: nat)
    | Enqueue(spec: JobSpec)
    | EnqueueOrdered(spec: JobSpec, key: OrderingKey, domain: string)
    | Claim(id: int, owner: string, lanes: set<Lane>, milliseconds: int)
    | ClaimAtStartup(id: int, logicalKey: string, args: CallerArgs, owner: string, milliseconds: int)
    | Renew(id: int, owner: string, generation: int, milliseconds: int)
    | Merge(id: int, owner: string, generation: int, patch: Patch)
    | Complete(id: int, owner: string, generation: int)
    | Retry(claimed: ClaimedJob, runAt: int)
    | DeadLetter(id: int, owner: string, generation: int)
    | Cancel(kind: string, cancelKey: string)
    | Record(t: int, spec: JobSpec)
    | RecordOnce(t: int, spec: JobSpec)
    | Commit(t: int)
    | Abort(t: int)
    | Dispatch(rows: seq<int>)
    | Repair(q: Request, activation: int)
    | Settle(pollId: int, generation: int, outcome: Outcome)
    | PruneMarkers(stale: set<(string, OrderingKey)>)

  /** Statements that wait for another transaction's uncommitted outbox row. */
  ghost predicate Waits(db: Db, step: Step) {
    match step
    case Record(t, spec) => !KeyFree(db.open, t, spec.kind, spec.logicalKey)
    case RecordOnce(t, spec) => !KeyFree(db.open, t, spec.kind, spec.logicalKey)
    case Cancel(kind, key) => exists id :: id in db.open && CancelsEvent(db, id, kind, key)
    case Repair(q, _) =>
      var pending := FirstPending(db.outbox, q, Keys(db.jobs, q));
      pending.Some? && pending.value in db.open
    case _ => false
  }

  /** Statements that are not refused; rows locked elsewhere may hide better candidates from a claim. */
  ghost predicate Permitted(db: Db, step: Step) {
    match step
    case Enqueue(spec) => spec.Valid()
    case EnqueueOrdered(spec, _, _) => spec.Valid()
    case Claim(id, owner, lanes, ms) => Candidate(db, id, lanes) && ValidLease(owner, ms)
    case ClaimAtStartup(id, key, args, owner, ms) => StartupClaimable(db, id, key, args) && ValidLease(owner, ms)
    case Renew(_, owner, _, ms) => ValidLease(owner, ms)
    case Record(_, spec) => spec.Valid()
    case RecordOnce(_, spec) => spec.Valid()
    case Dispatch(rows) => Dispatchable(db, rows) && DispatchRows(db, rows).Ok?
    case _ => true
  }

  /** Statements that go through at once. */
  ghost predicate Enabled(db: Db, step: Step) {
    !Waits(db, step) && Permitted(db, step)
  }

  ghost function Apply(db: Db, step: Step): Db
    requires Permitted(db, step)
  {
    match step
    case Tick(elapsed) => db.(clock := db.clock + elapsed)
    case Enqueue(spec) => EnqueueRow(db, spec, None, spec.runAt).0
    case EnqueueOrdered(spec, key, domain) => EnqueueOrderedRow(db, spec, key, domain).0
    case Claim(id, owner, _, ms) => ClaimRow(db, id, owner, ms).0
    case ClaimAtStartup(id, _, _, owner, ms) => ClaimRow(db, id, owner, ms).0
    case Renew(id, owner, generation, ms) => RenewRow(db, id, owner, generation, ms).0
    case Merge(id, owner, generation, patch) => MergeRow(db, id, owner, generation, patch).0
    case Complete(id, owner, generation) => CompleteRow(db, id, owner, generation).0
    case Retry(claimed, runAt) => RetryRow(db, claimed, runAt).0
    case DeadLetter(id, owner, generation) => DeadLetterRow(db, id, owner, generation).0
    case Cancel(kind, key) => CancelRows(db, kind, key)
    case Record(t, spec) => RecordRow(db, t, spec).0
    case RecordOnce(t, spec) => RecordOnceRow(db, t, spec).0
    case Commit(t) => CommitRows(db, t)
    case Abort(t) => AbortRows(db, t)
    case Dispatch(rows) => DispatchRows(db, rows).value.0
    case Repair(q, activation) => Reconcile(db, q, activation).0
    case Settle(pollId, generation, outcome) => RecordEffect(db, pollId, generation, outcome).0
    case PruneMarkers(stale) => db.(markers := map at | at in db.markers && at !in stale :: db.markers[at])
  }

  lemma SelectableIsReady(db: Db, rows: seq<int>)
    requires Dispatchable(db, rows)
    ensures Ready(db, rows)
  {
    forall i | 0 <= i < |rows|
      ensures rows[i] in db.outbox && db.outbox[rows[i]].Pending()
      ensures LiveHolder(db.jobs, db.outbox[rows[i]].kind, db.outbox[rows[i]].logicalKey).None?
    {
      assert Selectable(db, rows[i]);
    }
  }

  /** Statements that insert or remove rows, or touch the side tables. */
  lemma UnfencedStepEvolves(db: Db, step: Step)
    requires WellFormed(db) && Enabled(db, step)
    requires !step.Claim? && !step.ClaimAtStartup? && !step.Renew? && !step.Merge? && !step.Complete?
    requires !step.Retry? && !step.DeadLetter?
    ensures Evolves(db, Apply(db, step)) && WellFormed(Apply(db, step))
  {
    hide Evolves, EnqueueRow, EnqueueOrderedRow, CancelRows, RecordRow, RecordOnceRow, CommitRows, AbortRows, Reconcile, Waits;
    var db' := Apply(db, step);
    match step
    case Enqueue(spec) => EnqueueEvolves(db, spec, None, spec.runAt);
    case EnqueueOrdered(spec, key, domain) => EnqueueOrderedEvolves(db, spec, key, domain);
    case Cancel(kind, key) => CancelEvolves(db, kind, key);
    case Record(t, spec) => RecordEvolves(db, t, spec);
    case RecordOnce(t, spec) => RecordEvolves(db, t, spec);
    case Commit(t) => CommitEvolves(db, t);
    case Abort(t) => CommitEvolves(db, t);
    case Dispatch(rows) => DispatchEvolves(db, rows);
    case Repair(q, activation) => RepairEvolves(db, q, activation);
    case _ => SideTablesEvolve(db, db');
  }

  /** Every statement changes rows legally and keeps the tables well formed. */
  lemma StepEvolves(db: Db, step: Step)
    requires WellFormed(db) && Enabled(db, step)
    ensures Evolves(db, Apply(db, step)) && WellFormed(Apply(db, step))
  {
    hide WellFormed, Evolves, RowStep, Leasing, RenewRow, MergeRow, CompleteRow, RetryRow, DeadLetterRow, Waits;
    var db' := Apply(db, step);
    match step
    case Claim(id, owner, _, ms) =>
      ClaimIsLegal(db, id, owner, db.clock + 1000 * ms);
      assert db' == ClaimRow(db, id, owner, ms).0;
      ClaimEvolves(db, id, owner, ms);
    case ClaimAtStartup(id, _, _, owner, ms) =>
      ClaimIsLegal(db, id, owner, db.clock + 1000 * ms);
      assert db' == ClaimRow(db, id, owner, ms).0;
      ClaimEvolves(db, id, owner, ms);
    case Renew(id, owner, generation, ms) =>
      assert db' == RenewRow(db, id, owner, generation, ms).0;
      RenewEvolves(db, id, owner, generation, ms);
    case Merge(id, owner, generation, patch) =>
      assert db' == MergeRow(db, id, owner, generation, patch).0;
      MergeEvolves(db, id, owner, generation, patch);
    case Complete(id, owner, generation) => CompleteEvolves(db, id, owner, generation);
    case Retry(claimed, runAt) =>
      assert db' == RetryRow(db, claimed, runAt).0;
      RetryEvolves(db, claimed, runAt);
    case DeadLetter(id, owner, generation) =>
      assert db' == DeadLetterRow(db, id, owner, generation).0;
      DeadLetterEvolves(db, id, owner, generation);
    case _ => UnfencedStepEvolves(db, step);
  }

  lemma SideTablesEvolve(a: Db, b: Db)
    requires WellFormed(a) && a.clock <= b.clock
    requires b == a.(clock := b.clock, effects := b.effects, markers := b.markers)
    requires forall at :: at in b.markers ==> at in a.markers && b.markers[at] == a.markers[at]
    ensures Evolves(a, b) && WellFormed(b)
  {
    assert forall id :: id in a.jobs ==> RowStep(a, id, a.jobs[id]);
  }

  lemma DispatchEvolves(db: Db, rows: seq<int>)
    requires WellFormed(db) && Dispatchable(db, rows) && DispatchRows(db, rows).Ok?
    ensures var db' := DispatchRows(db, rows).value.0;
            Converted(db, rows, db') && Evolves(db, db') && WellFormed(db')
  {
    SelectableIsReady(db, rows);
    DispatchConverts(db, rows);
    ConvertedEvolves(db, rows, DispatchRows(db, rows).value.0);
  }

  // ------------------------------------------------------------------ frames

  predicate ByWorker(step: Step) {
    || step.Claim? || step.ClaimAtStartup? || step.Renew? || step.Merge? || step.Complete? || step.Retry? || step.DeadLetter?
  }

  lemma ClaimsTouchJobs(db: Db, step: Step)
    requires Permitted(db, step) && (step.Claim? || step.ClaimAtStartup?)
    ensures Apply(db, step) == db.(jobs := Apply(db, step).jobs)
  {
    hide PassesFences, Leasing, EnqueueRow, EnqueueOrderedRow, RenewRow, MergeRow, CompleteRow, RetryRow, DeadLetterRow;
    hide CancelRows, RecordRow, RecordOnceRow, CommitRows, AbortRows, DispatchRows, Reconcile, RecordEffect;
  }

  lemma AnswersTouchJobs(db: Db, step: Step)
    requires Permitted(db, step) && ByWorker(step) && !step.Claim? && !step.ClaimAtStartup?
    ensures Apply(db, step) == db.(jobs := Apply(db, step).jobs)
  {
    hide Permitted, Holds, Killed, EnqueueRow, EnqueueOrderedRow, ClaimRow, CancelRows, RecordRow, RecordOnceRow;
    hide CommitRows, AbortRows, DispatchRows, Reconcile, RecordEffect;
  }

  lemma RecordersTouchDrafts(db: Db, step: Step)
    requires Permitted(db, step) && (step.Record? || step.RecordOnce? || step.Commit? || step.Abort?)
    ensures var db' := Apply(db, step);
            && db' == db.(outbox := db'.outbox, open := db'.open, nextEventId := db'.nextEventId)
            && db.nextEventId <= db'.nextEventId
            && (!step.Commit? ==> db'.outbox == db.outbox)
            && (step.Commit? || step.Abort? ==> db'.nextEventId == db.nextEventId)
  {
    hide Permitted, RecordHolder, EventOf, EnqueueRow, EnqueueOrderedRow, ClaimRow, RenewRow, MergeRow, CompleteRow;
    hide RetryRow, DeadLetterRow, CancelRows, DispatchRows, Reconcile, RecordEffect;
  }

  lemma OthersTouch(db: Db, step: Step)
    requires Permitted(db, step) && !ByWorker(step)
    requires !step.Record? && !step.RecordOnce? && !step.Commit? && !step.Abort? && !step.Dispatch? && !step.Repair?
    ensures var db' := Apply(db, step);
            && db'.open == db.open && db'.nextEventId == db.nextEventId
            && (!step.Cancel? ==> db'.outbox == db.outbox)
            && (!step.EnqueueOrdered? && !step.PruneMarkers? ==> db'.markers == db.markers)
            && (!step.Settle? ==> db'.effects == db.effects)
            && (!step.Tick? ==> db'.clock == db.clock)
  {
    hide Permitted, LiveHolder, NewJob, MarkerOf, OrderedRunAt, CancelsJob, CancelsEvent;
    hide ClaimRow, RenewRow, MergeRow, CompleteRow, RetryRow, DeadLetterRow, RecordRow, RecordOnceRow;
    hide CommitRows, AbortRows, DispatchRows, Reconcile;
  }

  /** Which tables a statement leaves alone. */
  lemma StepTouches(db: Db, step: Step)
    requires WellFormed(db) && Permitted(db, step)
    ensures var db' := Apply(db, step);
            && (!step.Cancel? && !step.Commit? && !step.Dispatch? && !step.Repair? ==> db'.outbox == db.outbox)
            && (!step.Record? && !step.RecordOnce? && !step.Commit? && !step.Abort? ==> db'.open == db.open)
            && (!step.Record? && !step.RecordOnce? ==> db'.nextEventId == db.nextEventId)
            && db.nextEventId <= db'.nextEventId
            && (!step.EnqueueOrdered? && !step.Dispatch? && !step.PruneMarkers? ==> db'.markers == db.markers)
            && (!step.Repair? && !step.Settle? ==> db'.effects == db.effects)
            && (!step.Tick? ==> db'.clock == db.clock)
  {
    hide WellFormed, Apply, Permitted, Evolves, Dispatchable, DispatchRows, Reconcile;
    if step.Dispatch? {
      DispatchTouches(db, step);
    } else if step.Repair? {
      RepairTouches(db, step);
    } else if step.Claim? || step.ClaimAtStartup? {
      ClaimsTouchJobs(db, step);
    } else if ByWorker(step) {
      AnswersTouchJobs(db, step);
    } else if step.Record? || step.RecordOnce? || step.Commit? || step.Abort? {
      RecordersTouchDrafts(db, step);
    } else {
      OthersTouch(db, step);
    }
  }

  lemma DispatchTouches(db: Db, step: Step)
    requires WellFormed(db) && Permitted(db, step) && step.Dispatch?
    ensures Apply(db, step) == DispatchRows(db, step.rows).value.0
    ensures Converted(db, step.rows, Apply(db, step))
  {
    hide WellFormed, Evolves, Converted;
    DispatchEvolves(db, step.rows);
  }

  lemma RepairTouches(db: Db, step: Step)
    requires WellFormed(db) && Permitted(db, step) && step.Repair?
    ensures Apply(db, step) == Reconcile(db, step.q, step.activation).0
    ensures Undisturbed(db, step.q, Apply(db, step))
  {
    hide Permitted, Reconcile, Undisturbed;
    ReconcileFrame(db, step.q, step.activation);
  }

  // -------------------------------------------------------------- histories

  datatype Ending = Acknowledged | Buried | Rescheduled

  /** A fenced acknowledgement that succeeded, and the stream of the row it ended. */
  datatype Settlement = Settlement(
    id: int,
    owner: string,
    generation: int,
    kind: string,
    key: Option<OrderingKey>,
    ending: Ending)
  {
    predicate Final() { ending != Rescheduled }
  }

  /** An outbox event that became a job, and the commit that had put it in line. */
  datatype Sent = Sent(event: int, job: int, pair: Option<(int, string)>, recording: int)

  /** `recorded` lists, commit by commit, the events that commit put in line for delivery. */
  datatype Sys = Sys(
    db: Db,
    issued: set<ClaimedJob>,
    settled: seq<Settlement>,
    recorded: seq<set<int>>,
    sent: seq<Sent>)

  /** A committed row gets in line unless it only replaces a pending row of the same pair. */
  predicate Enters(db: Db, t: int, id: int) {
    && id in db.open
    && db.open[id].tx == t
    && !(id in db.outbox && db.outbox[id].Pending() && PairOf(db.outbox[id]) == PairOf(db.open[id].event))
  }

  function NewInLine(db: Db, step: Step): seq<set<int>> {
    match step
    case Commit(t) => [set id | id in db.open && Enters(db, t, id)]
    case _ => []
  }

  /** The last commit that put an event in line; -1 for what the tables held to begin with. */
  function Recording(recorded: seq<set<int>>, event: int): (n: int)
    ensures -1 <= n < |recorded|
    ensures n >= 0 ==> event in recorded[n]
  {
    if recorded == [] then -1
    else if event in recorded[|recorded| - 1] then |recorded| - 1
    else Recording(recorded[..|recorded| - 1], event)
  }

  function SettlementOf(db: Db, id: int, owner: string, generation: int, ending: Ending): seq<Settlement> {
    if Holds(db, id, owner, generation) then
      [Settlement(id, owner, generation, db.jobs[id].kind, db.jobs[id].args.Key(), ending)]
    else []
  }

  function Issued(db: Db, step: Step): set<ClaimedJob> {
    match step
    case Claim(id, owner, _, ms) => if id in db.jobs then {ClaimRow(db, id, owner, ms).1} else {}
    case ClaimAtStartup(id, _, _, owner, ms) => if id in db.jobs then {ClaimRow(db, id, owner, ms).1} else {}
    case _ => {}
  }

  function Settled(db: Db, step: Step): seq<Settlement> {
    match step
    case Complete(id, owner, generation) => SettlementOf(db, id, owner, generation, Acknowledged)
    case DeadLetter(id, owner, generation) => SettlementOf(db, id, owner, generation, Buried)
    case Retry(claimed, _) =>
      SettlementOf(db, claimed.id, claimed.owner, claimed.generation,
                   if claimed.attempt >= claimed.maxAttempts then Buried else Rescheduled)
    case _ => []
  }

  function Sends(db: Db, recorded: seq<set<int>>, step: Step): seq<Sent> {
    match step
    case Dispatch(rows) =>
      seq(|rows|, k requires 0 <= k < |rows| =>
        Sent(rows[k], db.nextJobId + k, if rows[k] in db.outbox then PairOf(db.outbox[rows[k]]) else None,
             Recording(recorded, rows[k])))
    case _ => []
  }

  ghost function Next(sys: Sys, step: Step): Sys
    requires Enabled(sys.db, step)
  {
    Sys(Apply(sys.db, step),
        sys.issued + Issued(sys.db, step),
        sys.settled + Settled(sys.db, step),
        sys.recorded + NewInLine(sys.db, step),
        sys.sent + Sends(sys.db, sys.recorded, step))
  }

  ghost predicate Takes(before: Sys, step: Step, after: Sys) {
    Enabled(before.db, step) && after == Next(before, step)
  }

  /** `states` is what a run from `start` (with empty histories) passes through. */
  ghost predicate IsRun(start: Db, run: seq<Step>, states: seq<Sys>) {
    && |states| == |run| + 1
    && states[0] == Sys(start, {}, [], [], [])
    && forall i :: 0 <= i < |run| ==> Takes(states[i], run[i], states[i + 1])
  }

  // -------------------------------------------------------- lease invariants

  /** The row still carries the generation of this claim, and with it the claimed attempt count. */
  ghost predicate SnapshotOk(db: Db, claimed: ClaimedJob) {
    && claimed.id < db.nextJobId
    && (claimed.id in db.jobs ==>
          && claimed.generation <= db.jobs[claimed.id].generation
          && (claimed.generation == db.jobs[claimed.id].generation ==>
                && claimed.attempt == db.jobs[claimed.id].attempts
                && claimed.maxAttempts == db.jobs[claimed.id].maxAttempts
                && (db.jobs[claimed.id].lease.Some? ==> db.jobs[claimed.id].lease.value.owner == claimed.owner)))
  }

  ghost predicate Spent(db: Db, s: Settlement) {
    && s.id < db.nextJobId
    && (s.id in db.jobs ==>
          && s.generation <= db.jobs[s.id].generation
          && (s.generation == db.jobs[s.id].generation ==> db.jobs[s.id].lease.None?))
  }

  ghost predicate LeaseInv(sys: Sys) {
    && WellFormed(sys.db)
    && (forall c :: c in sys.issued ==> SnapshotOk(sys.db, c))
    && (forall c, d :: c in sys.issued && d in sys.issued && c.id == d.id && c.generation == d.generation ==> c == d)
    && (forall i :: 0 <= i < |sys.settled| ==> Spent(sys.db, sys.settled[i]))
    && (forall i, j :: 0 <= i < j < |sys.settled| ==>
          sys.settled[i].id != sys.settled[j].id || sys.settled[i].generation != sys.settled[j].generation)
  }

  lemma SnapshotStays(a: Db, b: Db, claimed: ClaimedJob)
    requires Evolves(a, b) && SnapshotOk(a, claimed)
    ensures SnapshotOk(b, claimed)
  {
    if claimed.id in b.jobs { assert RowStep(a, claimed.id, b.jobs[claimed.id]); }
  }

  lemma SpentStays(a: Db, b: Db, s: Settlement)
    requires Evolves(a, b) && Spent(a, s)
    ensures Spent(b, s)
  {
    if s.id in b.jobs { assert RowStep(a, s.id, b.jobs[s.id]); }
  }

  /** A successful acknowledgement spends its token on the spot. */
  lemma SettlingSpends(db: Db, step: Step)
    requires WellFormed(db) && Enabled(db, step)
    ensures |Settled(db, step)| <= 1
    ensures forall i :: 0 <= i < |Settled(db, step)| ==>
              var s := Settled(db, step)[i];
              Holds(db, s.id, s.owner, s.generation) && Spent(Apply(db, step), s)
              && s.kind == db.jobs[s.id].kind && s.key == db.jobs[s.id].args.Key()
              && (s.Final() ==> s.id in Apply(db, step).jobs ==> !Apply(db, step).jobs[s.id].Live())
  {
  }

  lemma IssuingIsNew(db: Db, step: Step, earlier: ClaimedJob)
    requires Enabled(db, step) && SnapshotOk(db, earlier)
    ensures forall c :: c in Issued(db, step) ==>
              c.id != earlier.id || c.generation != earlier.generation
  {
  }

  lemma IssuedSnapshot(db: Db, step: Step)
    requires WellFormed(db) && Enabled(db, step)
    ensures forall c :: c in Issued(db, step) ==> SnapshotOk(Apply(db, step), c)
    ensures forall c, d :: c in Issued(db, step) && d in Issued(db, step) ==> c == d
  {
  }

  lemma LeaseInvStep(sys: Sys, step: Step, next: Sys)
    requires LeaseInv(sys) && Takes(sys, step, next)
    ensures LeaseInv(next)
  {
    StepEvolves(sys.db, step);
    SettlingSpends(sys.db, step);
    IssuedSnapshot(sys.db, step);
    forall c | c in sys.issued ensures SnapshotOk(next.db, c) {
      SnapshotStays(sys.db, next.db, c);
    }
    forall c, d | c in sys.issued && d in Issued(sys.db, step)
      ensures c.id != d.id || c.generation != d.generation
    {
      IssuingIsNew(sys.db, step, c);
    }
    forall i | 0 <= i < |sys.settled| ensures Spent(next.db, sys.settled[i]) {
      SpentStays(sys.db, next.db, sys.settled[i]);
    }
  }
}
