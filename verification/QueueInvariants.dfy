/** What every statement of the queue keeps: row shape, unique keys, and stream order. */
module QueueInvariants {
  import opened Wrappers
  import opened QueueModel
  import opened PollRepair
  import opened PollRepairProofs

  ghost predicate RowOk(job: Job, id: int) {
    && 0 <= job.attempts <= job.maxAttempts
    && 0 < job.maxAttempts
    && 0 <= job.generation
    && (1 <= job.generation ==> 1 <= job.attempts)
    && (job.lease.Some? ==> job.Live() && 1 <= job.generation)
    && (job.args.Predecessor().Some? ==> job.args.Predecessor().value < id)
  }

  predicate EverClaimed(job: Job) {
    job.Live() && job.generation > 0
  }

  /**
   A live row that was ever claimed is the oldest live row of its stream. The startup claim
   ignores the fences, but it takes only rows that belong to no stream.
   */
  ghost predicate StreamOrder(jobs: map<int, Job>) {
    forall id, e | id in jobs && EverClaimed(jobs[id]) :: !EarlierBlocks(jobs, id, e)
  }

  ghost predicate TablesOk(db: Db) {
    && 1 <= db.nextJobId && 1 <= db.nextEventId
    && (forall id :: id in db.outbox ==> 1 <= id < db.nextEventId)
    && (forall id :: id in db.open ==> 1 <= id < db.nextEventId)
    && (forall at :: at in db.markers && db.markers[at].jobId.Some? ==> db.markers[at].jobId.value < db.nextJobId)
  }

  predicate SameKey(a: OutboxEvent, b: OutboxEvent) {
    a.kind == b.kind && a.logicalKey.Some? && a.logicalKey == b.logicalKey
  }

  /** A new version of a row keeps its kind and key. */
  predicate Replaces(a: OutboxEvent, b: OutboxEvent) { a.kind == b.kind && a.logicalKey == b.logicalKey }

  /** Uncommitted rows are pending, keep the key of the row they replace, and clash with no other row,
      committed or not. */
  ghost predicate DraftsOk(outbox: map<int, OutboxEvent>, open: map<int, Draft>) {
    && (forall id :: id in open ==> open[id].event.Pending())
    && (forall id :: id in open && id in outbox ==> Replaces(open[id].event, outbox[id]))
    && (forall a, b | a in open && b in outbox && a != b :: !SameKey(open[a].event, outbox[b]))
    && (forall a, b | a in open && b in open && a != b :: !SameKey(open[a].event, open[b].event))
  }

  ghost predicate WellFormed(db: Db) {
    && TablesOk(db)
    && (forall id :: id in db.jobs ==> 1 <= id < db.nextJobId && RowOk(db.jobs[id], id))
    && LiveKeysUnique(db.jobs)
    && EventKeysUnique(db.outbox)
    && DraftsOk(db.outbox, db.open)
    && StreamOrder(db.jobs)
  }

  // ------------------------------------------------------ legal row changes

  ghost predicate SameIdentity(a: Job, b: Job) {
    && a.lane == b.lane
    && a.kind == b.kind
    && a.logicalKey == b.logicalKey
    && a.maxAttempts == b.maxAttempts
    && a.args.ordering == b.args.ordering
  }

  /** No new lease; an existing one is dropped, kept, or extended while it is still valid. */
  ghost predicate KeepsGeneration(a: Job, b: Job, now: int) {
    && b.generation == a.generation
    && b.attempts == a.attempts
    && (b.lease.Some? ==>
          && b.Live()
          && a.lease.Some?
          && b.lease.value.owner == a.lease.value.owner
          && (b.lease == a.lease || a.Leased(now)))
  }

  ghost predicate TakesLease(db: Db, id: int, b: Job)
    requires id in db.jobs
  {
    var a := db.jobs[id];
    && !a.Leased(db.clock)
    && b.Live()
    && b.lease.Some?
    && b.generation == a.generation + 1
    && b.attempts == (if a.attempts < a.maxAttempts then a.attempts + 1 else a.attempts)
    && (a.args.Key().None? || PassesFences(db.jobs, id))
  }

  ghost predicate RowStep(db: Db, id: int, b: Job)
    requires id in db.jobs
  {
    var a := db.jobs[id];
    && SameIdentity(a, b)
    && (!a.Live() ==> b == a)
    && (KeepsGeneration(a, b, db.clock) || TakesLease(db, id, b))
  }

  ghost predicate FreshRow(job: Job, id: int) {
    && job.attempts == 0
    && 0 < job.maxAttempts
    && job.generation == 0
    && job.lease.None?
    && job.Live()
    && (job.args.Predecessor().Some? ==> job.args.Predecessor().value < id)
  }

  /** Every row of `b` is a legal successor of its row in `a`, or a fresh row with a new id. */
  ghost predicate Evolves(a: Db, b: Db) {
    && a.clock <= b.clock
    && a.nextJobId <= b.nextJobId
    && forall id :: id in b.jobs ==>
         if id in a.jobs then RowStep(a, id, b.jobs[id])
         else a.nextJobId <= id < b.nextJobId && FreshRow(b.jobs[id], id)
  }

  /** The heart of the ordering argument: legal changes cannot put a row before a claimed one. */
  lemma EvolutionKeepsOrder(a: Db, b: Db)
    requires WellFormed(a) && Evolves(a, b)
    ensures forall id :: id in b.jobs ==> 1 <= id < b.nextJobId && RowOk(b.jobs[id], id)
    ensures StreamOrder(b.jobs)
  {
    forall id, e | id in b.jobs && EverClaimed(b.jobs[id])
      ensures !EarlierBlocks(b.jobs, id, e)
    {
      assert id in a.jobs && RowStep(a, id, b.jobs[id]);
      if EarlierBlocks(b.jobs, id, e) {
        assert e in a.jobs && RowStep(a, e, b.jobs[e]);
        assert EarlierBlocks(a.jobs, id, e);
      }
    }
  }

  /** Without new rows, live keys stay unique. */
  lemma EvolutionKeepsKeys(a: Db, b: Db)
    requires LiveKeysUnique(a.jobs) && Evolves(a, b) && b.jobs.Keys <= a.jobs.Keys
    ensures LiveKeysUnique(b.jobs)
  {
    hide KeepsGeneration, TakesLease;
    forall id | id in b.jobs
      ensures b.jobs[id].kind == a.jobs[id].kind && b.jobs[id].logicalKey == a.jobs[id].logicalKey
      ensures b.jobs[id].Live() ==> a.jobs[id].Live()
    {
      assert RowStep(a, id, b.jobs[id]);
    }
  }

  lemma EvolvedInPlace(a: Db, b: Db)
    requires WellFormed(a) && Evolves(a, b) && b.jobs.Keys <= a.jobs.Keys
    requires TablesOk(b) && EventKeysUnique(b.outbox) && DraftsOk(b.outbox, b.open)
    ensures WellFormed(b)
  {
    hide Evolves, StreamOrder, LiveKeysUnique;
    EvolutionKeepsOrder(a, b);
    EvolutionKeepsKeys(a, b);
  }

  lemma RowStays(db: Db, id: int)
    requires id in db.jobs && RowOk(db.jobs[id], id)
    ensures RowStep(db, id, db.jobs[id])
  {
  }

  // ---------------------------------------------------------- one statement

  lemma InsertEvolves(db: Db, job: Job)
    requires WellFormed(db) && FreshRow(job, db.nextJobId)
    requires LiveHolder(db.jobs, job.kind, job.logicalKey).None?
    ensures var db' := db.(jobs := db.jobs[db.nextJobId := job], nextJobId := db.nextJobId + 1);
            Evolves(db, db') && WellFormed(db')
  {
    var db' := db.(jobs := db.jobs[db.nextJobId := job], nextJobId := db.nextJobId + 1);
    assert forall id :: id in db.jobs ==> RowStep(db, id, db.jobs[id]);
    EvolutionKeepsOrder(db, db');
    assert LiveKeysUnique(db'.jobs) by {
      if job.logicalKey.Some? {
        forall id | id in db.jobs
          ensures db.jobs[id].Live() && db.jobs[id].kind == job.kind ==> db.jobs[id].logicalKey != job.logicalKey
        {
          assert !HoldsKey(db.jobs, id, job.kind, job.logicalKey.value);
        }
      }
    }
  }

  lemma BurnIdEvolves(db: Db)
    requires WellFormed(db)
    ensures var db' := db.(nextJobId := db.nextJobId + 1);
            Evolves(db, db') && WellFormed(db')
  {
    assert forall id :: id in db.jobs ==> RowStep(db, id, db.jobs[id]);
  }

  lemma EnqueueEvolves(db: Db, spec: JobSpec, ordering: Option<Ordering>, runAt: int)
    requires WellFormed(db) && spec.Valid()
    requires ordering.Some? && ordering.value.predecessor.Some? ==> ordering.value.predecessor.value < db.nextJobId
    ensures var (db', id) := EnqueueRow(db, spec, ordering, runAt);
            Evolves(db, db') && WellFormed(db') && id < db'.nextJobId && db' == db.(jobs := db'.jobs, nextJobId := db.nextJobId + 1)
  {
    var db' := EnqueueRow(db, spec, ordering, runAt).0;
    var job := NewJob(spec, ordering, runAt);
    if LiveHolder(db.jobs, spec.kind, spec.logicalKey).Some? {
      assert db' == db.(nextJobId := db.nextJobId + 1);
      BurnIdEvolves(db);
    } else {
      assert FreshRow(job, db.nextJobId);
      assert db' == db.(jobs := db.jobs[db.nextJobId := job], nextJobId := db.nextJobId + 1);
      InsertEvolves(db, job);
    }
  }

  lemma EnqueueOrderedEvolves(db: Db, spec: JobSpec, key: OrderingKey, domain: string)
    requires WellFormed(db) && spec.Valid()
    ensures var db' := EnqueueOrderedRow(db, spec, key, domain).0;
            Evolves(db, db') && WellFormed(db')
  {
    var marker := MarkerOf(db, domain, key, spec.runAt);
    EnqueueEvolves(db, spec, Some(Ordering(key, marker.jobId)), OrderedRunAt(marker, spec.runAt));
    var (mid, id) := EnqueueRow(db, spec, Some(Ordering(key, marker.jobId)), OrderedRunAt(marker, spec.runAt));
    var db' := EnqueueOrderedRow(db, spec, key, domain).0;
    EvolutionKeepsOrder(db, db');
  }

  /** Any legal change of a single row that keeps it (or its death) is a legal step of the table. */
  lemma UpdateEvolves(db: Db, id: int, job: Job)
    requires WellFormed(db) && id in db.jobs && RowStep(db, id, job)
    ensures Evolves(db, UpdateJob(db, id, job)) && WellFormed(UpdateJob(db, id, job))
  {
    hide RowOk, RowStep, LiveKeysUnique, StreamOrder;
    var db' := UpdateJob(db, id, job);
    forall other | other in db.jobs ensures RowStep(db, other, db.jobs[other]) { RowStays(db, other); }
    EvolvedInPlace(db, db');
  }

  /** Removing rows from either table is always legal. */
  lemma RemovalEvolves(a: Db, b: Db)
    requires WellFormed(a)
    requires b == a.(jobs := b.jobs, outbox := b.outbox)
    requires b.jobs.Keys <= a.jobs.Keys && forall id :: id in b.jobs ==> b.jobs[id] == a.jobs[id]
    requires b.outbox.Keys <= a.outbox.Keys && forall id :: id in b.outbox ==> b.outbox[id] == a.outbox[id]
    ensures Evolves(a, b) && WellFormed(b)
  {
    assert forall id :: id in a.jobs ==> RowStep(a, id, a.jobs[id]);
    EvolutionKeepsOrder(a, b);
  }

  lemma CancelEvolves(db: Db, kind: string, key: string)
    requires WellFormed(db)
    ensures Evolves(db, CancelRows(db, kind, key)) && WellFormed(CancelRows(db, kind, key))
  {
    RemovalEvolves(db, CancelRows(db, kind, key));
  }

  lemma CompleteEvolves(db: Db, id: int, owner: string, generation: int)
    requires WellFormed(db)
    ensures var db' := CompleteRow(db, id, owner, generation).0;
            Evolves(db, db') && WellFormed(db')
  {
    RemovalEvolves(db, CompleteRow(db, id, owner, generation).0);
  }

  lemma ClaimIsLegal(db: Db, id: int, owner: string, expiresAt: int)
    requires id in db.jobs && db.jobs[id].Live() && !db.jobs[id].Leased(db.clock)
    requires db.jobs[id].args.Key().None? || PassesFences(db.jobs, id)
    ensures RowStep(db, id, Leasing(db.jobs[id], owner, expiresAt))
  {
  }

  lemma ClaimEvolves(db: Db, id: int, owner: string, milliseconds: int)
    requires WellFormed(db) && id in db.jobs
    requires RowStep(db, id, Leasing(db.jobs[id], owner, db.clock + 1000 * milliseconds))
    ensures var db' := ClaimRow(db, id, owner, milliseconds).0;
            Evolves(db, db') && WellFormed(db')
  {
    var job := Leasing(db.jobs[id], owner, db.clock + 1000 * milliseconds);
    assert ClaimRow(db, id, owner, milliseconds).0 == UpdateJob(db, id, job);
    UpdateEvolves(db, id, job);
  }

  lemma RenewalIsLegal(db: Db, id: int, owner: string, generation: int, expiresAt: int)
    requires Holds(db, id, owner, generation)
    ensures RowStep(db, id, db.jobs[id].(lease := Some(Lease(owner, expiresAt))))
  {
  }

  lemma RenewEvolves(db: Db, id: int, owner: string, generation: int, milliseconds: int)
    requires WellFormed(db)
    ensures var db' := RenewRow(db, id, owner, generation, milliseconds).0;
            Evolves(db, db') && WellFormed(db')
  {
    hide RowOk, RowStep, LiveKeysUnique, StreamOrder, EventKeysUnique, DraftsOk, TablesOk;
    if Holds(db, id, owner, generation) {
      RenewalIsLegal(db, id, owner, generation, db.clock + 1000 * milliseconds);
      UpdateEvolves(db, id, db.jobs[id].(lease := Some(Lease(owner, db.clock + 1000 * milliseconds))));
    } else {
      RemovalEvolves(db, db);
    }
  }

  lemma MergeEvolves(db: Db, id: int, owner: string, generation: int, patch: Patch)
    requires WellFormed(db)
    ensures var db' := MergeRow(db, id, owner, generation, patch).0;
            Evolves(db, db') && WellFormed(db')
  {
    RemovalEvolves(db, db);
    if Holds(db, id, owner, generation) {
      UpdateEvolves(db, id, MergeRow(db, id, owner, generation, patch).0.jobs[id]);
    }
  }

  lemma KillEvolves(db: Db, id: int)
    requires WellFormed(db) && id in db.jobs && db.jobs[id].Live()
    ensures var db' := UpdateJob(db, id, Killed(db.jobs[id], db.clock));
            Evolves(db, db') && WellFormed(db')
  {
    UpdateEvolves(db, id, Killed(db.jobs[id], db.clock));
  }

  lemma RetryEvolves(db: Db, claimed: ClaimedJob, runAt: int)
    requires WellFormed(db)
    ensures var db' := RetryRow(db, claimed, runAt).0;
            Evolves(db, db') && WellFormed(db')
  {
    RemovalEvolves(db, db);
    if Holds(db, claimed.id, claimed.owner, claimed.generation) {
      KillEvolves(db, claimed.id);
      UpdateEvolves(db, claimed.id, db.jobs[claimed.id].(lease := None, runAt := runAt));
    }
  }

  lemma DeadLetterEvolves(db: Db, id: int, owner: string, generation: int)
    requires WellFormed(db)
    ensures var db' := DeadLetterRow(db, id, owner, generation).0;
            Evolves(db, db') && WellFormed(db')
  {
    RemovalEvolves(db, db);
    if Holds(db, id, owner, generation) { KillEvolves(db, id); }
  }

  /** Recording changes nothing that others can see, and clashes with nobody. */
  lemma RecordEvolves(db: Db, t: int, spec: JobSpec)
    requires WellFormed(db)
    ensures Evolves(db, RecordRow(db, t, spec).0) && WellFormed(RecordRow(db, t, spec).0)
    ensures Evolves(db, RecordOnceRow(db, t, spec).0) && WellFormed(RecordOnceRow(db, t, spec).0)
  {
    var holder := RecordHolder(db, spec.kind, spec.logicalKey);
    var id := if holder.Some? then holder.value else db.nextEventId;
    DraftFits(db.outbox, db.open, t, id, spec, holder);
    OpenEvolves(db, WriteDraft(db, t, id, EventOf(spec)));
    OpenEvolves(db, db.(nextEventId := db.nextEventId + 1));
  }

  lemma OpenEvolves(a: Db, b: Db)
    requires WellFormed(a) && b == a.(open := b.open, nextEventId := b.nextEventId)
    requires a.nextEventId <= b.nextEventId && DraftsOk(a.outbox, b.open)
    requires forall id :: id in b.open ==> 1 <= id < b.nextEventId
    ensures Evolves(a, b) && WellFormed(b)
  {
    assert forall id :: id in a.jobs ==> RowStep(a, id, a.jobs[id]);
  }

  lemma DraftFits(
    outbox: map<int, OutboxEvent>, open: map<int, Draft>, t: int, id: int, spec: JobSpec, holder: Option<int>)
    requires DraftsOk(outbox, open) && EventKeysUnique(outbox)
    requires holder == (if DraftHolder(open, spec.kind, spec.logicalKey).Some? then DraftHolder(open, spec.kind, spec.logicalKey)
                        else EventHolder(outbox, spec.kind, spec.logicalKey))
    requires if holder.Some? then id == holder.value else id !in outbox && id !in open
    ensures DraftsOk(outbox, open[id := Draft(t, EventOf(spec))])
  {
    var event := EventOf(spec);
    if spec.logicalKey.Some? {
      forall b | b in outbox && b != id ensures !SameKey(event, outbox[b]) {
        assert HasEventKey(outbox, b, spec.kind, spec.logicalKey.value) <==> SameKey(event, outbox[b]);
      }
      forall b | b in open && b != id ensures !SameKey(event, open[b].event) {
        assert DraftsKey(open, b, spec.kind, spec.logicalKey.value) <==> SameKey(event, open[b].event);
      }
    }
  }

  lemma CommitEvolves(db: Db, t: int)
    requires WellFormed(db)
    ensures Evolves(db, CommitRows(db, t)) && WellFormed(CommitRows(db, t))
    ensures Evolves(db, AbortRows(db, t)) && WellFormed(AbortRows(db, t))
  {
    CommitKeepsKeys(db.outbox, db.open, t);
    assert forall other :: other in db.jobs ==> RowStep(db, other, db.jobs[other]);
    EvolutionKeepsOrder(db, CommitRows(db, t));
    EvolutionKeepsOrder(db, AbortRows(db, t));
  }

  lemma CommitKeepsKeys(outbox: map<int, OutboxEvent>, open: map<int, Draft>, t: int)
    requires DraftsOk(outbox, open) && EventKeysUnique(outbox)
    ensures var outbox' := outbox + (map id | id in open && open[id].tx == t :: open[id].event);
            var open' := map id | id in open && open[id].tx != t :: open[id];
            EventKeysUnique(outbox') && DraftsOk(outbox', open')
  {
    var outbox' := outbox + (map id | id in open && open[id].tx == t :: open[id].event);
    forall a, b | a in outbox' && b in outbox' && a != b ensures !SameKey(outbox'[a], outbox'[b]) {
      assert a in open || outbox'[a] == outbox[a];
    }
  }

  lemma EarlierTimesEvolve(a: Db, b: Db)
    requires WellFormed(a) && a.nextJobId <= b.nextJobId
    requires b == a.(jobs := b.jobs, outbox := b.outbox, effects := b.effects, nextJobId := b.nextJobId)
    requires b.jobs.Keys == a.jobs.Keys && forall id :: id in a.jobs ==> JobOnlyEarlier(a, id, b.jobs[id])
    requires b.outbox.Keys == a.outbox.Keys
    requires forall id :: id in a.outbox ==> EventOnlyEarlier(a.outbox[id], b.outbox[id])
    ensures Evolves(a, b) && WellFormed(b)
  {
    forall id | id in a.jobs ensures RowStep(a, id, b.jobs[id]) {
      assert JobOnlyEarlier(a, id, b.jobs[id]);
      RowStays(a, id);
    }
    hide RowOk, RowStep, LiveKeysUnique, StreamOrder, JobOnlyEarlier;
    EvolvedInPlace(a, b);
  }

  lemma RepairEvolves(db: Db, q: Request, activation: int)
    requires WellFormed(db)
    ensures var db' := Reconcile(db, q, activation).0;
            Evolves(db, db') && WellFormed(db')
  {
    hide Evolves, StreamOrder, LiveKeysUnique;
    var db' := Reconcile(db, q, activation).0;
    if Accepted(db, q) && q.expiresAt > activation && Decide(StateOf(db, q)) == Create {
      EnqueueEvolves(db, RepairSpec(db.jobs, q), None, q.target);
    } else {
      ReconcileFrame(db, q, activation);
      KeepsJobKeys(db, q, activation);
      EarlierTimesEvolve(db, db');
    }
  }

  lemma KeepsJobKeys(db: Db, q: Request, activation: int)
    requires !(Accepted(db, q) && q.expiresAt > activation && Decide(StateOf(db, q)) == Create)
    ensures Reconcile(db, q, activation).0.jobs.Keys == db.jobs.Keys
    ensures Reconcile(db, q, activation).0.nextJobId == db.nextJobId
  {
  }

  // --------------------------------------------------------------- dispatch

  /** The job an event becomes: its own lane, kind, key, arguments and attempts, never earlier. */
  ghost predicate Delivers(event: OutboxEvent, job: Job) {
    && OutboxSpec(event).Ok?
    && var spec := OutboxSpec(event).value;
       && job.lane == spec.lane
       && job.kind == spec.kind
       && job.logicalKey == spec.logicalKey
       && job.args.own == spec.args
       && job.maxAttempts == spec.maxAttempts
       && job.args.Key() == DeliveryKeyOf(spec)
       && (if DeliveryKeyOf(spec).None? then job.runAt == spec.runAt else job.runAt >= spec.runAt)
  }

  ghost predicate DeliveredAs(event: OutboxEvent, id: int, job: Job) {
    Delivers(event, job) && FreshRow(job, id)
  }

  /** Pending rows with distinct logical keys, none of which is held by a live job. */
  ghost predicate Ready(db: Db, rows: seq<int>) {
    && Distinct(rows)
    && forall i :: 0 <= i < |rows| ==>
         && rows[i] in db.outbox
         && db.outbox[rows[i]].Pending()
         && LiveHolder(db.jobs, db.outbox[rows[i]].kind, db.outbox[rows[i]].logicalKey).None?
  }

  /** One event became one fresh job and is marked dispatched; only the markers may differ besides. */
  ghost predicate HandsOver(a: Db, id: int, b: Db)
    requires id in a.outbox
  {
    && a.nextJobId in b.jobs
    && b.jobs == a.jobs[a.nextJobId := b.jobs[a.nextJobId]]
    && DeliveredAs(a.outbox[id], a.nextJobId, b.jobs[a.nextJobId])
    && b.outbox == a.outbox[id := a.outbox[id].(dispatchedAt := Some(a.clock))]
    && b == a.(jobs := b.jobs, outbox := b.outbox, nextJobId := a.nextJobId + 1, markers := b.markers)
  }

  lemma DispatchRowHandsOver(db: Db, id: int, spec: JobSpec)
    requires WellFormed(db) && id in db.outbox && OutboxSpec(db.outbox[id]) == Ok(spec)
    requires LiveHolder(db.jobs, spec.kind, spec.logicalKey).None?
    ensures var (db', n) := DispatchRow(db, id, spec);
            n == 1 && HandsOver(db, id, db')
  {
    if DeliveryKeyOf(spec).Some? {
      var marker := MarkerOf(db, DELIVERY_DOMAIN, DeliveryKeyOf(spec).value, spec.runAt);
      assert marker.jobId.Some? ==> marker.jobId.value < db.nextJobId;
    }
  }

  lemma HandOverKeepsForm(a: Db, id: int, b: Db)
    requires WellFormed(a) && id in a.outbox && HandsOver(a, id, b)
    requires LiveHolder(a.jobs, a.outbox[id].kind, a.outbox[id].logicalKey).None?
    requires TablesOk(b)
    ensures Evolves(a, b) && WellFormed(b)
  {
    hide RowStep, RowOk, StreamOrder, Delivers, LiveKeysUnique, EventKeysUnique, DraftsOk;
    forall other | other in a.jobs ensures RowStep(a, other, a.jobs[other]) { RowStays(a, other); }
    EvolutionKeepsOrder(a, b);
    HandOverKeepsJobKeys(a, id, b);
    HandOverKeepsEventKeys(a, id, b);
  }

  lemma HandOverKeepsJobKeys(a: Db, id: int, b: Db)
    requires LiveKeysUnique(a.jobs) && id in a.outbox && HandsOver(a, id, b)
    requires LiveHolder(a.jobs, a.outbox[id].kind, a.outbox[id].logicalKey).None?
    ensures LiveKeysUnique(b.jobs)
  {
    if a.outbox[id].logicalKey.Some? {
      forall other | other in a.jobs
        ensures a.jobs[other].Live() && a.jobs[other].kind == a.outbox[id].kind ==>
                  a.jobs[other].logicalKey != a.outbox[id].logicalKey
      {
        assert !HoldsKey(a.jobs, other, a.outbox[id].kind, a.outbox[id].logicalKey.value);
      }
    }
  }

  lemma HandOverKeepsEventKeys(a: Db, id: int, b: Db)
    requires EventKeysUnique(a.outbox) && DraftsOk(a.outbox, a.open) && id in a.outbox && HandsOver(a, id, b)
    ensures EventKeysUnique(b.outbox) && DraftsOk(b.outbox, b.open)
  {
  }

  lemma DispatchRowTables(db: Db, id: int, spec: JobSpec)
    requires WellFormed(db) && id in db.outbox && spec.Valid()
    ensures TablesOk(DispatchRow(db, id, spec).0)
  {
    if DeliveryKeyOf(spec).Some? {
      EnqueueOrderedEvolves(db, spec, DeliveryKeyOf(spec).value, DELIVERY_DOMAIN);
    } else {
      EnqueueEvolves(db, spec, None, spec.runAt);
    }
  }

  /** One turn of the dispatch loop inserts exactly one job: conflicts cannot arise. */
  lemma TurnHandsOver(db: Db, rows: seq<int>, spec: JobSpec)
    requires WellFormed(db) && rows != [] && Ready(db, rows) && OutboxSpec(db.outbox[rows[0]]) == Ok(spec)
    ensures var (db', n) := DispatchRow(db, rows[0], spec);
            n == 1 && HandsOver(db, rows[0], db') && WellFormed(db') && Ready(db', rows[1..])
  {
    var db' := DispatchRow(db, rows[0], spec).0;
    DispatchRowHandsOver(db, rows[0], spec);
    DispatchRowTables(db, rows[0], spec);
    HandOverKeepsForm(db, rows[0], db');
    StaysReady(db, rows, db');
  }

  function EventsAt(outbox: map<int, OutboxEvent>, rows: seq<int>): seq<OutboxEvent>
    requires forall i :: 0 <= i < |rows| ==> rows[i] in outbox
  {
    seq(|rows|, i requires 0 <= i < |rows| => outbox[rows[i]])
  }

  ghost predicate NewJobs(events: seq<OutboxEvent>, first: int, jobs: map<int, Job>) {
    forall id :: first <= id < first + |events| ==> id in jobs && DeliveredAs(events[id - first], id, jobs[id])
  }

  /** One job per row, in row order, on consecutive new ids; no other row appears or changes. */
  ghost predicate ConvertedJobs(a: Db, rows: seq<int>, b: Db)
    requires forall i :: 0 <= i < |rows| ==> rows[i] in a.outbox
  {
    && b.nextJobId == a.nextJobId + |rows|
    && (forall id :: id in b.jobs <==> id in a.jobs || a.nextJobId <= id < b.nextJobId)
    && (forall id :: id in a.jobs && id < a.nextJobId ==> b.jobs[id] == a.jobs[id])
    && NewJobs(EventsAt(a.outbox, rows), a.nextJobId, b.jobs)
  }

  /** Exactly the converted rows become dispatched. */
  ghost predicate ConvertedEvents(a: Db, rows: seq<int>, b: Db) {
    && b.outbox.Keys == a.outbox.Keys
    && (forall id :: id in a.outbox ==>
          b.outbox[id] == if id in rows then a.outbox[id].(dispatchedAt := Some(a.clock)) else a.outbox[id])
  }

  ghost predicate Converted(a: Db, rows: seq<int>, b: Db)
    requires forall i :: 0 <= i < |rows| ==> rows[i] in a.outbox
  {
    && ConvertedJobs(a, rows, b)
    && ConvertedEvents(a, rows, b)
    && b == a.(jobs := b.jobs, outbox := b.outbox, nextJobId := b.nextJobId, markers := b.markers)
  }

  /** A hand-over leaves the remaining rows ready: their keys differ from the one just taken. */
  lemma StaysReady(a: Db, rows: seq<int>, b: Db)
    requires WellFormed(a) && rows != [] && Ready(a, rows) && HandsOver(a, rows[0], b)
    ensures Ready(b, rows[1..])
  {
    forall i | 0 <= i < |rows[1..]|
      ensures rows[1..][i] in b.outbox && b.outbox[rows[1..][i]] == a.outbox[rows[i + 1]]
      ensures LiveHolder(b.jobs, b.outbox[rows[1..][i]].kind, b.outbox[rows[1..][i]].logicalKey).None?
    {
      var event := a.outbox[rows[i + 1]];
      if event.logicalKey.Some? {
        forall id ensures !HoldsKey(b.jobs, id, event.kind, event.logicalKey.value) {
          assert !HoldsKey(a.jobs, id, event.kind, event.logicalKey.value);
        }
      }
    }
  }

  /** The first turn of the loop, and the rest. */
  lemma DispatchUnfolds(db: Db, rows: seq<int>, spec: JobSpec)
    requires rows != [] && (forall i :: 0 <= i < |rows| ==> rows[i] in db.outbox)
    requires OutboxSpec(db.outbox[rows[0]]) == Ok(spec)
    requires forall i :: 0 <= i < |rows[1..]| ==> rows[1..][i] in DispatchRow(db, rows[0], spec).0.outbox
    ensures var (mid, n) := DispatchRow(db, rows[0], spec);
            DispatchRows(db, rows) == match DispatchRows(mid, rows[1..])
                                      case Err(e) => Err(e)
                                      case Ok((last, m)) => Ok((last, n + m))
  {
    hide DispatchRow, OutboxSpec;
  }

  /** A dispatch that commits conserves work: each row became exactly one job. */
  lemma {:induction false} DispatchConverts(db: Db, rows: seq<int>)
    requires WellFormed(db) && Ready(db, rows) && DispatchRows(db, rows).Ok?
    ensures var (db', n) := DispatchRows(db, rows).value;
            n == |rows| && Converted(db, rows, db') && WellFormed(db')
    decreases rows
  {
    if rows != [] {
      assert OutboxSpec(db.outbox[rows[0]]).Ok?;
      hide WellFormed, HandsOver, Converted, DispatchRow, DispatchRows;
      var spec := OutboxSpec(db.outbox[rows[0]]).value;
      var mid := DispatchRow(db, rows[0], spec).0;
      TurnHandsOver(db, rows, spec);
      DispatchUnfolds(db, rows, spec);
      DispatchConverts(mid, rows[1..]);
      ConvertedStep(db, rows, mid, DispatchRows(mid, rows[1..]).value.0);
    }
  }

  /** A malformed payload among the rows is the only thing that makes a dispatch fail. */
  lemma {:induction false} DispatchFailsOnMalformed(db: Db, rows: seq<int>)
    requires WellFormed(db) && Ready(db, rows)
    ensures DispatchRows(db, rows).Err? <==> exists i :: 0 <= i < |rows| && OutboxSpec(db.outbox[rows[i]]).Err?
    decreases rows
  {
    hide WellFormed;
    if rows != [] {
      var first := OutboxSpec(db.outbox[rows[0]]);
      if first.Ok? {
        var mid := DispatchRow(db, rows[0], first.value).0;
        TurnHandsOver(db, rows, first.value);
        DispatchFailsOnMalformed(mid, rows[1..]);
        assert forall i :: 0 <= i < |rows[1..]| ==> rows[1..][i] == rows[i + 1] != rows[0];
        assert DispatchRows(db, rows).Err? <==> DispatchRows(mid, rows[1..]).Err?;
        forall i | 0 < i < |rows|
          ensures OutboxSpec(db.outbox[rows[i]]) == OutboxSpec(mid.outbox[rows[1..][i - 1]])
        {
        }
      }
    }
  }

  lemma ConvertedStep(a: Db, rows: seq<int>, mid: Db, b: Db)
    requires WellFormed(a) && rows != [] && Ready(a, rows) && HandsOver(a, rows[0], mid)
    requires Ready(mid, rows[1..]) && Converted(mid, rows[1..], b)
    ensures Converted(a, rows, b)
  {
    ConvertedJobsStep(a, rows, mid, b);
    assert forall id :: id in rows <==> id == rows[0] || id in rows[1..];
    assert rows[0] !in rows[1..];
  }

  lemma NewJobsStep(events: seq<OutboxEvent>, first: int, jobs: map<int, Job>)
    requires events != [] && first in jobs && DeliveredAs(events[0], first, jobs[first])
    requires NewJobs(events[1..], first + 1, jobs)
    ensures NewJobs(events, first, jobs)
  {
    assert forall k :: 0 < k < |events| ==> events[k] == events[1..][k - 1];
  }

  lemma ConvertedJobsStep(a: Db, rows: seq<int>, mid: Db, b: Db)
    requires (forall id :: id in a.jobs ==> id < a.nextJobId)
    requires rows != [] && (forall i :: 0 <= i < |rows| ==> rows[i] in a.outbox)
    requires Distinct(rows) && HandsOver(a, rows[0], mid)
    requires ConvertedJobs(mid, rows[1..], b)
    ensures ConvertedJobs(a, rows, b)
  {
    var events := EventsAt(a.outbox, rows);
    assert EventsAt(mid.outbox, rows[1..]) == events[1..];
    assert b.jobs[a.nextJobId] == mid.jobs[a.nextJobId];
    NewJobsStep(events, a.nextJobId, b.jobs);
  }

  lemma ConvertedEvolves(a: Db, rows: seq<int>, b: Db)
    requires forall id :: id in a.jobs ==> 1 <= id < a.nextJobId && RowOk(a.jobs[id], id)
    requires (forall i :: 0 <= i < |rows| ==> rows[i] in a.outbox) && Converted(a, rows, b)
    ensures Evolves(a, b)
  {
    hide RowStep, RowOk, Delivers;
    forall id | id in a.jobs ensures RowStep(a, id, a.jobs[id]) { RowStays(a, id); }
    assert forall id :: a.nextJobId <= id < b.nextJobId ==>
             DeliveredAs(EventsAt(a.outbox, rows)[id - a.nextJobId], id, b.jobs[id]);
  }
}
