/** What the outbox conserves, and what a cancellation leaves behind. */
module QueueCancellation {
  import opened Wrappers
  import opened QueueModel
  import opened PollRepair
  import opened PollRepairProofs
  import opened QueueInvariants
  import opened QueueRuns
  import opened QueueLeases

  /** Rebuilding a job from its recorded payload gives back exactly the valid specifications. */
  lemma OutboxSpecUndoesRecording(spec: JobSpec)
    ensures spec.Valid() ==> OutboxSpec(EventOf(spec)) == Ok(spec)
    ensures !spec.Valid() ==> OutboxSpec(EventOf(spec)) == Err(InvalidInput)
  {
  }

  ghost predicate NoJob(jobs: map<int, Job>, kind: string, key: string) {
    forall id :: !HoldsKey(jobs, id, kind, key)
  }

  ghost predicate NoEvent(db: Db, kind: string, key: string) {
    forall e :: !CancelsEvent(db, e, kind, key)
  }

  /** No live row and no pending event carries the key. */
  ghost predicate Absent(db: Db, kind: string, key: string) {
    NoJob(db.jobs, kind, key) && NoEvent(db, kind, key)
  }

  /** Statements that put work under a key on purpose. */
  ghost predicate Introduces(db: Db, step: Step, kind: string, key: string) {
    match step
    case Enqueue(spec) => spec.kind == kind && spec.logicalKey == Some(key)
    case EnqueueOrdered(spec, _, _) => spec.kind == kind && spec.logicalKey == Some(key)
    case Commit(t) => exists id :: DraftsKey(db.open, id, kind, key) && db.open[id].tx == t
    case Repair(q, _) => kind == POLL_KIND && RepairSpec(db.jobs, q).logicalKey == Some(key)
    case _ => false
  }

  /** After a cancellation only leased work of the key is left, and nothing is pending. */
  lemma CancelLeavesOnlyLeases(db: Db, kind: string, key: string)
    ensures var db' := CancelRows(db, kind, key);
            && (forall id :: HoldsKey(db'.jobs, id, kind, key) <==>
                  HoldsKey(db.jobs, id, kind, key) && db.jobs[id].Leased(db.clock))
            && (forall e :: !CancelsEvent(db', e, kind, key))
            && (Absent(db', kind, key) <==>
                  forall id :: HoldsKey(db.jobs, id, kind, key) ==> !db.jobs[id].Leased(db.clock))
  {
    var db' := CancelRows(db, kind, key);
    assert forall id :: HoldsKey(db'.jobs, id, kind, key) <==>
             HoldsKey(db.jobs, id, kind, key) && db.jobs[id].Leased(db.clock);
  }

  lemma NoJobAppears(a: Db, b: Db, kind: string, key: string)
    requires Evolves(a, b) && NoJob(a.jobs, kind, key)
    requires forall id :: id in b.jobs && id !in a.jobs ==> !HoldsKey(b.jobs, id, kind, key)
    ensures NoJob(b.jobs, kind, key)
  {
    forall id ensures !HoldsKey(b.jobs, id, kind, key) {
      if id in a.jobs && id in b.jobs {
        assert RowStep(a, id, b.jobs[id]) && !HoldsKey(a.jobs, id, kind, key);
      }
    }
  }

  /** A converted row carries the key of an event that was pending. */
  lemma NoJobFromDispatch(db: Db, rows: seq<int>, id: int, job: Job, kind: string, key: string)
    requires Dispatchable(db, rows) && NoEvent(db, kind, key)
    requires db.nextJobId <= id < db.nextJobId + |rows|
    requires forall i :: 0 <= i < |rows| ==> rows[i] in db.outbox
    requires Delivers(db.outbox[rows[id - db.nextJobId]], job)
    ensures !(job.kind == kind && job.logicalKey == Some(key))
  {
    var e := rows[id - db.nextJobId];
    assert Selectable(db, e) && !CancelsEvent(db, e, kind, key);
  }

  lemma AbsentAfterDispatch(db: Db, rows: seq<int>, kind: string, key: string)
    requires WellFormed(db) && Dispatchable(db, rows) && DispatchRows(db, rows).Ok?
    requires Absent(db, kind, key)
    ensures Absent(DispatchRows(db, rows).value.0, kind, key)
  {
    var db' := DispatchRows(db, rows).value.0;
    DispatchEvolves(db, rows);
    forall id | id in db'.jobs && id !in db.jobs ensures !HoldsKey(db'.jobs, id, kind, key) {
      assert DeliveredAs(EventsAt(db.outbox, rows)[id - db.nextJobId], id, db'.jobs[id]);
      NoJobFromDispatch(db, rows, id, db'.jobs[id], kind, key);
    }
    NoJobAppears(db, db', kind, key);
    forall e ensures !CancelsEvent(db', e, kind, key) { assert !CancelsEvent(db, e, kind, key); }
  }

  lemma AbsentAfterRepair(db: Db, q: Request, activation: int, kind: string, key: string)
    requires WellFormed(db) && Absent(db, kind, key)
    requires !(kind == POLL_KIND && RepairSpec(db.jobs, q).logicalKey == Some(key))
    ensures Absent(Reconcile(db, q, activation).0, kind, key)
  {
    var db' := Reconcile(db, q, activation).0;
    ReconcileFrame(db, q, activation);
    RepairEvolves(db, q, activation);
    NoJobAppears(db, db', kind, key);
    forall e ensures !CancelsEvent(db', e, kind, key) {
      if e in db.outbox { assert EventOnlyEarlier(db.outbox[e], db'.outbox[e]) && !CancelsEvent(db, e, kind, key); }
    }
  }

  lemma NoJobFromStep(db: Db, step: Step, kind: string, key: string)
    requires WellFormed(db) && Enabled(db, step) && !step.Dispatch? && !step.Repair?
    requires NoJob(db.jobs, kind, key) && !Introduces(db, step, kind, key)
    ensures NoJob(Apply(db, step).jobs, kind, key)
  {
    hide Waits, WellFormed;
    StepEvolves(db, step);
    if !step.Enqueue? && !step.EnqueueOrdered? { StepAddsNoJob(db, step); }
    NoJobAppears(db, Apply(db, step), kind, key);
  }

  lemma StepAddsNoJob(db: Db, step: Step)
    requires Enabled(db, step) && !step.Dispatch? && !step.Repair? && !step.Enqueue? && !step.EnqueueOrdered?
    ensures Apply(db, step).jobs.Keys <= db.jobs.Keys
  {
    hide Waits, RecordHolder, CancelsJob, CancelsEvent, Killed, Leasing;
    hide EnqueueRow, EnqueueOrderedRow, DispatchRows, Reconcile;
  }

  lemma NoEventFromStep(db: Db, step: Step, kind: string, key: string)
    requires Enabled(db, step) && !step.Dispatch? && !step.Repair?
    requires NoEvent(db, kind, key) && !Introduces(db, step, kind, key)
    ensures NoEvent(Apply(db, step), kind, key)
  {
    hide Waits;
    forall e ensures !CancelsEvent(Apply(db, step), e, kind, key) {
      assert !CancelsEvent(db, e, kind, key);
      if step.Commit? && DraftsKey(db.open, e, kind, key) { assert db.open[e].tx != step.t; }
    }
  }

  /** Work of an absent key cannot come back by itself. */
  lemma AbsentStays(db: Db, step: Step, kind: string, key: string)
    requires WellFormed(db) && Enabled(db, step)
    requires Absent(db, kind, key) && !Introduces(db, step, kind, key)
    ensures Absent(Apply(db, step), kind, key)
  {
    hide Waits, WellFormed;
    match step
    case Dispatch(rows) => AbsentAfterDispatch(db, rows, kind, key);
    case Repair(q, activation) => AbsentAfterRepair(db, q, activation, kind, key);
    case _ =>
      NoJobFromStep(db, step, kind, key);
      NoEventFromStep(db, step, kind, key);
  }

  /** A key that is absent stays absent until a statement of the run introduces it again. */
  lemma {:induction false} AbsentUntilIntroduced(
      start: Db, run: seq<Step>, states: seq<Sys>, i: nat, j: nat, kind: string, key: string)
    requires WellFormed(start) && IsRun(start, run, states) && i <= j <= |run|
    requires Absent(states[i].db, kind, key)
    requires forall k :: i <= k < j ==> !Introduces(states[k].db, run[k], kind, key)
    ensures Absent(states[j].db, kind, key)
  {
    if i < j {
      AbsentUntilIntroduced(start, run, states, i, j - 1, kind, key);
      AbsentAt(start, run, states, j - 1, kind, key);
    }
  }

  lemma AbsentAt(start: Db, run: seq<Step>, states: seq<Sys>, i: nat, kind: string, key: string)
    requires WellFormed(start) && IsRun(start, run, states) && i < |run|
    requires Absent(states[i].db, kind, key) && !Introduces(states[i].db, run[i], kind, key)
    ensures Absent(states[i + 1].db, kind, key)
  {
    RunKeepsLeases(start, run, states, i);
    assert Takes(states[i], run[i], states[i + 1]);
    AbsentStays(states[i].db, run[i], kind, key);
  }
}
