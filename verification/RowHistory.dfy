/**
 What becomes of one row of the job table, told in the row's own fields: which statement may change
 which field, and what follows over whole runs for due times, leases, arguments and lost work.
 */
module RowHistory {
  import opened Wrappers
  import opened QueueModel
  import opened PollRepair
  import opened PollRepairProofs
  import opened QueueInvariants
  import opened QueueRuns
  import opened QueueLeases

  /** The row is leased to this owner under this generation, and the lease has not run out. */
  predicate Owned(job: Job, owner: string, generation: int, now: int) {
    && job.deadAt == None
    && job.generation == generation
    && job.lease.Some?
    && job.lease.value.owner == owner
    && now < job.lease.value.expiresAt
  }

  /** No lease, or one that has run out. */
  predicate Idle(job: Job, now: int) {
    job.lease == None || job.lease.value.expiresAt <= now
  }

  function RowAt(jobs: map<int, Job>, id: int): Option<Job> {
    if id in jobs then Some(jobs[id]) else None
  }

  function Taken(job: Job, owner: string, expiresAt: int): Job {
    Job(job.lane, job.kind, job.args, job.logicalKey, job.runAt,
        if job.attempts < job.maxAttempts then job.attempts + 1 else job.maxAttempts,
        job.maxAttempts, job.generation + 1, Some(Lease(owner, expiresAt)), None)
  }

  /** What a step leaves of a row that was there before. */
  ghost predicate Accounted(now: int, step: Step, id: int, row: Job, after: Option<Job>) {
    match step
    case Claim(i, owner, lanes, ms) =>
      if i != id then after == Some(row)
      else
        && row.deadAt == None && row.runAt <= now && Idle(row, now) && row.lane in lanes
        && after == Some(Taken(row, owner, now + 1000 * ms))
    case ClaimAtStartup(i, key, args, owner, ms) =>
      if i != id then after == Some(row)
      else
        && row.deadAt == None && Idle(row, now)
        && row.kind == RECONCILE_KIND && row.lane == Maintenance && row.logicalKey == Some(key) && row.args == Args(args, None)
        && after == Some(Taken(row, owner, now + 1000 * ms))
    case Renew(i, owner, generation, ms) =>
      after == Some(if i == id && Owned(row, owner, generation, now)
                    then row.(lease := Some(Lease(owner, now + 1000 * ms))) else row)
    case Merge(i, owner, generation, patch) =>
      if i == id && Owned(row, owner, generation, now)
      then after.Some? && after.value == row.(args := after.value.args) && Patched(row.args, patch, after.value.args)
      else after == Some(row)
    case Complete(i, owner, generation) =>
      after == if i == id && Owned(row, owner, generation, now) then None else Some(row)
    case Retry(claimed, runAt) =>
      after == Some(if claimed.id != id || !Owned(row, claimed.owner, claimed.generation, now) then row
                    else if claimed.attempt >= claimed.maxAttempts then row.(lease := None, deadAt := Some(now))
                    else row.(lease := None, runAt := runAt))
    case DeadLetter(i, owner, generation) =>
      after == Some(if i == id && Owned(row, owner, generation, now)
                    then row.(lease := None, deadAt := Some(now)) else row)
    case Cancel(kind, key) =>
      after == if row.kind == kind && row.logicalKey == Some(key) && row.deadAt == None && Idle(row, now)
               then None else Some(row)
    case Repair(_, _) =>
      && after.Some?
      && (|| after == Some(row)
          || (&& row.deadAt == None && row.attempts <= 0 && Idle(row, now)
              && after.value.runAt < row.runAt && after.value == row.(runAt := after.value.runAt)))
    case _ => after == Some(row)
  }

  /** The fields a patch names have its values, all others the old ones; ordering is untouched. */
  predicate Patched(before: Args, patch: Patch, after: Args) {
    && after.ordering == before.ordering
    && after.own.pollId == (if patch.pollId.Some? then patch.pollId.value else before.own.pollId)
    && after.own.generation == (if patch.generation.Some? then patch.generation.value else before.own.generation)
    && after.own.source == (if patch.source.Some? then patch.source.value else before.own.source)
    && after.own.inbox == (if patch.inbox.Some? then patch.inbox.value else before.own.inbox)
    && after.own.body.Keys == before.own.body.Keys + patch.body.Keys
    && (forall name :: name in patch.body ==> after.own.body[name] == patch.body[name])
    && (forall name :: name in before.own.body && name !in patch.body ==> after.own.body[name] == before.own.body[name])
  }

  lemma ClaimAccounts(db: Db, step: Step, id: int)
    requires WellFormed(db) && Permitted(db, step) && id in db.jobs && (step.Claim? || step.ClaimAtStartup?)
    ensures Accounted(db.clock, step, id, db.jobs[id], RowAt(Apply(db, step).jobs, id))
  {
    hide PassesFences, StreamOrder, LiveKeysUnique, EventKeysUnique, DraftsOk, TablesOk, ValidLease;
    hide EnqueueRow, EnqueueOrderedRow, RenewRow, MergeRow, CompleteRow, RetryRow, DeadLetterRow, CancelRows, RecordRow;
    hide RecordOnceRow, CommitRows, AbortRows, DispatchRows, Reconcile, RecordEffect;
    assert RowOk(db.jobs[id], id);
  }

  lemma RenewAccounts(db: Db, step: Step, id: int)
    requires Permitted(db, step) && id in db.jobs && step.Renew?
    ensures Accounted(db.clock, step, id, db.jobs[id], RowAt(Apply(db, step).jobs, id))
  {
    hide Permitted;
    assert Apply(db, step) == RenewRow(db, step.id, step.owner, step.generation, step.milliseconds).0;
    hide Apply;
  }

  lemma CompleteAccounts(db: Db, step: Step, id: int)
    requires Permitted(db, step) && id in db.jobs && step.Complete?
    ensures Accounted(db.clock, step, id, db.jobs[id], RowAt(Apply(db, step).jobs, id))
  {
    hide Permitted;
    assert Apply(db, step) == CompleteRow(db, step.id, step.owner, step.generation).0;
    hide Apply;
  }

  lemma RetryAccounts(db: Db, step: Step, id: int)
    requires Permitted(db, step) && id in db.jobs && step.Retry?
    ensures Accounted(db.clock, step, id, db.jobs[id], RowAt(Apply(db, step).jobs, id))
  {
    hide Permitted;
    assert Apply(db, step) == RetryRow(db, step.claimed, step.runAt).0;
    hide Apply;
  }

  lemma DeadLetterAccounts(db: Db, step: Step, id: int)
    requires Permitted(db, step) && id in db.jobs && step.DeadLetter?
    ensures Accounted(db.clock, step, id, db.jobs[id], RowAt(Apply(db, step).jobs, id))
  {
    hide Permitted;
    assert Apply(db, step) == DeadLetterRow(db, step.id, step.owner, step.generation).0;
    hide Apply;
  }

  lemma MergeAccounts(db: Db, step: Step, id: int)
    requires Permitted(db, step) && id in db.jobs && step.Merge?
    ensures Accounted(db.clock, step, id, db.jobs[id], RowAt(Apply(db, step).jobs, id))
  {
    hide Permitted;
    assert Apply(db, step) == MergeRow(db, step.id, step.owner, step.generation, step.patch).0;
    hide Apply;
  }

  lemma CancelAccounts(db: Db, step: Step, id: int)
    requires Permitted(db, step) && id in db.jobs && step.Cancel?
    ensures Accounted(db.clock, step, id, db.jobs[id], RowAt(Apply(db, step).jobs, id))
  {
    hide Permitted;
    assert Apply(db, step) == CancelRows(db, step.kind, step.cancelKey);
    hide Apply;
  }

  lemma DispatchAccounts(db: Db, step: Step, id: int)
    requires WellFormed(db) && Permitted(db, step) && id in db.jobs && step.Dispatch?
    ensures Accounted(db.clock, step, id, db.jobs[id], RowAt(Apply(db, step).jobs, id))
  {
    hide StreamOrder, LiveKeysUnique, EventKeysUnique, DraftsOk, TablesOk, Reconcile;
    DispatchEvolves(db, step.rows);
    assert Apply(db, step) == DispatchRows(db, step.rows).value.0;
  }

  lemma RepairAccounts(db: Db, step: Step, id: int)
    requires WellFormed(db) && Permitted(db, step) && id in db.jobs && step.Repair?
    ensures Accounted(db.clock, step, id, db.jobs[id], RowAt(Apply(db, step).jobs, id))
  {
    hide StreamOrder, LiveKeysUnique, EventKeysUnique, DraftsOk, Permitted, Reconcile;
    ReconcileFrame(db, step.q, step.activation);
    var db' := Apply(db, step);
    assert db' == Reconcile(db, step.q, step.activation).0;
    assert JobOnlyEarlier(db, id, db'.jobs[id]);
  }

  lemma QuietMeansUnchanged(now: int, step: Step, id: int, row: Job)
    requires !step.Claim? && !step.ClaimAtStartup? && !step.Renew? && !step.Merge? && !step.Complete?
    requires !step.Retry? && !step.DeadLetter? && !step.Cancel? && !step.Dispatch? && !step.Repair?
    ensures Accounted(now, step, id, row, Some(row))
  {
  }

  lemma QuietAccounts(db: Db, step: Step, id: int)
    requires WellFormed(db) && Permitted(db, step) && id in db.jobs
    requires !step.Claim? && !step.ClaimAtStartup? && !step.Renew? && !step.Merge? && !step.Complete?
    requires !step.Retry? && !step.DeadLetter? && !step.Cancel? && !step.Dispatch? && !step.Repair?
    ensures Accounted(db.clock, step, id, db.jobs[id], RowAt(Apply(db, step).jobs, id))
  {
    hide Permitted, StreamOrder, LiveKeysUnique, EventKeysUnique, DraftsOk, TablesOk, Accounted;
    hide ClaimRow, RenewRow, MergeRow, CompleteRow, RetryRow, DeadLetterRow, CancelRows, DispatchRows, Reconcile;
    hide RecordHolder, LiveHolder, NewJob, MarkerOf, OrderedRunAt, EventOf;
    assert RowAt(Apply(db, step).jobs, id) == Some(db.jobs[id]);
    QuietMeansUnchanged(db.clock, step, id, db.jobs[id]);
  }

  lemma StepAccounts(db: Db, step: Step, id: int)
    requires WellFormed(db) && Enabled(db, step) && id in db.jobs
    ensures Accounted(db.clock, step, id, db.jobs[id], RowAt(Apply(db, step).jobs, id))
  {
    hide WellFormed, Waits, Permitted, Apply, Accounted, RowAt;
    match step
    case Claim(_, _, _, _) => ClaimAccounts(db, step, id);
    case ClaimAtStartup(_, _, _, _, _) => ClaimAccounts(db, step, id);
    case Renew(_, _, _, _) => RenewAccounts(db, step, id);
    case Complete(_, _, _) => CompleteAccounts(db, step, id);
    case Retry(_, _) => RetryAccounts(db, step, id);
    case DeadLetter(_, _, _) => DeadLetterAccounts(db, step, id);
    case Merge(_, _, _, _) => MergeAccounts(db, step, id);
    case Cancel(_, _) => CancelAccounts(db, step, id);
    case Dispatch(_) => DispatchAccounts(db, step, id);
    case Repair(_, _) => RepairAccounts(db, step, id);
    case _ => QuietAccounts(db, step, id);
  }

  lemma AccountedAt(start: Db, run: seq<Step>, states: seq<Sys>, k: nat, id: int)
    requires WellFormed(start) && IsRun(start, run, states) && k < |run| && id in states[k].db.jobs
    ensures Accounted(states[k].db.clock, run[k], id, states[k].db.jobs[id], RowAt(states[k + 1].db.jobs, id))
    ensures RowOk(states[k].db.jobs[id], id)
  {
    hide Accounted, Waits, Permitted, Apply;
    RunKeepsLeases(start, run, states, k);
    assert Takes(states[k], run[k], states[k + 1]);
    StepAccounts(states[k].db, run[k], id);
  }

  // ------------------------------------------------------------- no row lost

  /** Rows that are gone stay gone: ids are never used again. */
  lemma GoneAt(start: Db, run: seq<Step>, states: seq<Sys>, k: nat, id: int)
    requires WellFormed(start) && IsRun(start, run, states) && k < |run| && id < states[k].db.nextJobId
    ensures id < states[k + 1].db.nextJobId && states[k].db.clock <= states[k + 1].db.clock
    ensures id !in states[k].db.jobs ==> id !in states[k + 1].db.jobs
  {
    hide RowStep, FreshRow, Waits, Permitted, Apply, StreamOrder, LiveKeysUnique, EventKeysUnique, DraftsOk;
    RunKeepsLeases(start, run, states, k);
    assert Takes(states[k], run[k], states[k + 1]);
    StepEvolves(states[k].db, run[k]);
  }

  lemma KnownId(start: Db, run: seq<Step>, states: seq<Sys>, k: nat, id: int)
    requires WellFormed(start) && IsRun(start, run, states) && k <= |run| && id in states[k].db.jobs
    ensures id < states[k].db.nextJobId && RowOk(states[k].db.jobs[id], id)
  {
    RunKeepsLeases(start, run, states, k);
  }

  /** The two ways a row leaves the table: its owner completes it, or its key is cancelled while it
      is alive and idle. */
  predicate Leaves(now: int, step: Step, id: int, row: Job) {
    match step
    case Complete(i, owner, generation) => i == id && Owned(row, owner, generation, now)
    case Cancel(kind, key) => row.kind == kind && row.logicalKey == Some(key) && row.deadAt == None && Idle(row, now)
    case _ => false
  }

  /** The two ways a row dies: its owner gives it up, or retries it with no attempt left. */
  predicate Dies(now: int, step: Step, id: int, row: Job) {
    match step
    case DeadLetter(i, owner, generation) => i == id && Owned(row, owner, generation, now)
    case Retry(claimed, _) =>
      && claimed.id == id
      && Owned(row, claimed.owner, claimed.generation, now)
      && claimed.attempt >= claimed.maxAttempts
    case _ => false
  }

  ghost predicate LeftBy(run: seq<Step>, states: seq<Sys>, k: nat, id: int) {
    && k < |run| && k < |states| && id in states[k].db.jobs
    && Leaves(states[k].db.clock, run[k], id, states[k].db.jobs[id])
  }

  ghost predicate DiedBy(run: seq<Step>, states: seq<Sys>, k: nat, id: int, deadAt: int) {
    && k < |run| && k < |states| && id in states[k].db.jobs
    && Dies(states[k].db.clock, run[k], id, states[k].db.jobs[id]) && deadAt == states[k].db.clock
  }

  /** What no statement ever changes, and what only grows. */
  predicate SameWork(a: Job, b: Job) {
    && b.lane == a.lane && b.kind == a.kind && b.logicalKey == a.logicalKey && b.maxAttempts == a.maxAttempts
    && b.args.ordering == a.args.ordering
    && a.attempts <= b.attempts && a.generation <= b.generation
    && (a.deadAt.Some? ==> b == a)
  }

  lemma RowStepsOn(now: int, step: Step, id: int, row: Job, after: Option<Job>)
    requires Accounted(now, step, id, row, after) && RowOk(row, id)
    ensures after.None? ==> Leaves(now, step, id, row)
    ensures after.Some? ==> SameWork(row, after.value)
    ensures after.Some? && after.value.deadAt != row.deadAt ==>
              after.value.deadAt == Some(now) && Dies(now, step, id, row)
  {
  }

  /**
   No work is lost. Over any run a row keeps its lane, kind, keys and attempt limit, and is there
   until its lease holder completes it or its key is cancelled while it is idle; once dead it stays
   exactly as it is.
   */
  lemma {:induction false} NoJobIsLost(start: Db, run: seq<Step>, states: seq<Sys>, i: nat, j: nat, id: int)
    requires WellFormed(start) && IsRun(start, run, states) && i <= j <= |run| && id in states[i].db.jobs
    ensures if id in states[j].db.jobs then SameWork(states[i].db.jobs[id], states[j].db.jobs[id])
            else exists k: nat :: i <= k < j && LeftBy(run, states, k, id)
    decreases j
  {
    hide Accounted, Leaves, RowOk, WellFormed, Takes;
    if i < j {
      NoJobIsLost(start, run, states, i, j - 1, id);
      KnownId(start, run, states, i, id);
      IdsKnown(start, run, states, i, j - 1, id);
      if id in states[j - 1].db.jobs {
        AccountedAt(start, run, states, j - 1, id);
        var row, after := states[j - 1].db.jobs[id], RowAt(states[j - 1 + 1].db.jobs, id);
        RowStepsOn(states[j - 1].db.clock, run[j - 1], id, row, after);
        if id !in states[j].db.jobs { assert LeftBy(run, states, j - 1, id); }
      } else {
        GoneAt(start, run, states, j - 1, id);
      }
    }
  }

  lemma {:induction false} IdsKnown(start: Db, run: seq<Step>, states: seq<Sys>, i: nat, j: nat, id: int)
    requires WellFormed(start) && IsRun(start, run, states) && i <= j <= |run| && id < states[i].db.nextJobId
    ensures id < states[j].db.nextJobId && states[i].db.clock <= states[j].db.clock
    decreases j
  {
    hide WellFormed, Takes;
    if i < j {
      IdsKnown(start, run, states, i, j - 1, id);
      GoneAt(start, run, states, j - 1, id);
    }
  }

  /** A row dies only by its owner's hand, at the instant recorded in it. */
  lemma {:induction false} DeathIsDeserved(start: Db, run: seq<Step>, states: seq<Sys>, i: nat, j: nat, id: int)
    requires WellFormed(start) && IsRun(start, run, states) && i <= j <= |run|
    requires id in states[i].db.jobs && states[i].db.jobs[id].deadAt == None
    requires id in states[j].db.jobs && states[j].db.jobs[id].deadAt.Some?
    ensures exists k: nat :: i <= k < j && DiedBy(run, states, k, id, states[j].db.jobs[id].deadAt.value)
    decreases j
  {
    hide Accounted, Dies, SameWork, RowOk, WellFormed, Takes;
    KnownId(start, run, states, i, id);
    IdsKnown(start, run, states, i, j - 1, id);
    if id !in states[j - 1].db.jobs { GoneAt(start, run, states, j - 1, id); }
    AccountedAt(start, run, states, j - 1, id);
    var row, after := states[j - 1].db.jobs[id], RowAt(states[j - 1 + 1].db.jobs, id);
    RowStepsOn(states[j - 1].db.clock, run[j - 1], id, row, after);
    if row.deadAt == None {
      assert DiedBy(run, states, j - 1, id, states[j].db.jobs[id].deadAt.value);
    } else {
      DeathIsDeserved(start, run, states, i, j - 1, id);
    }
  }

  // --------------------------------------------------------------- due times

  /** A claim takes only a live, idle row that is due in an asked lane and held back by no other. */
  lemma ClaimTakesDueRow(start: Db, run: seq<Step>, states: seq<Sys>, k: nat)
    requires WellFormed(start) && IsRun(start, run, states) && k < |run| && run[k].Claim?
    ensures var id, db := run[k].id, states[k].db;
            && id in db.jobs && db.jobs[id].deadAt == None
            && db.jobs[id].runAt <= db.clock
            && (db.jobs[id].lease == None || db.jobs[id].lease.value.expiresAt <= db.clock)
            && db.jobs[id].lane in run[k].lanes
            && (forall b :: !HeldBack(db.jobs, id, b))
  {
    hide Accounted;
    assert Takes(states[k], run[k], states[k + 1]);
    var id, db := run[k].id, states[k].db;
    forall b ensures !HeldBack(db.jobs, id, b) {
      assert !PredecessorBlocks(db.jobs, id, b) && !EarlierBlocks(db.jobs, id, b);
    }
  }

  /** The live row `b` comes first: the row's named predecessor, unless it has another key, or an
      earlier row of the same kind and key. */
  ghost predicate HeldBack(jobs: map<int, Job>, id: int, b: int) {
    && id in jobs && b in jobs && jobs[b].deadAt == None && jobs[id].args.ordering.Some?
    && var key := jobs[id].args.ordering.value.key;
       || (&& jobs[id].args.ordering.value.predecessor == Some(b)
           && (jobs[b].args.ordering == None || jobs[b].args.ordering.value.key == key))
       || (&& b < id && jobs[b].kind == jobs[id].kind
           && jobs[b].args.ordering.Some? && jobs[b].args.ordering.value.key == key)
  }

  predicate Claims(step: Step, id: int) {
    (step.Claim? && step.id == id) || (step.ClaimAtStartup? && step.id == id)
  }

  /** Waiting for its retry: due no earlier, unleased, and tried before. */
  predicate BackedOff(row: Job, runAt: int) {
    row.runAt == runAt && row.lease == None && 1 <= row.attempts
  }

  lemma BackedOffStep(now: int, step: Step, id: int, row: Job, after: Job, runAt: int)
    requires Accounted(now, step, id, row, Some(after)) && BackedOff(row, runAt) && !Claims(step, id)
    ensures BackedOff(after, runAt)
  {
  }

  lemma {:induction false} StaysBackedOff(
      start: Db, run: seq<Step>, states: seq<Sys>, i: nat, j: nat, id: int, runAt: int)
    requires WellFormed(start) && IsRun(start, run, states) && i <= j <= |run|
    requires id in states[i].db.jobs && BackedOff(states[i].db.jobs[id], runAt)
    requires forall l :: i <= l < j ==> !Claims(run[l], id)
    ensures id in states[j].db.jobs ==> BackedOff(states[j].db.jobs[id], runAt)
    decreases j
  {
    hide Accounted, BackedOff, Claims, RowOk, WellFormed, Takes;
    if i < j {
      StaysBackedOff(start, run, states, i, j - 1, id, runAt);
      KnownId(start, run, states, i, id);
      IdsKnown(start, run, states, i, j - 1, id);
      GoneAt(start, run, states, j - 1, id);
      if id in states[j].db.jobs {
        AccountedAt(start, run, states, j - 1, id);
        BackedOffStep(states[j - 1].db.clock, run[j - 1], id, states[j - 1].db.jobs[id], states[j - 1 + 1].db.jobs[id], runAt);
      }
    }
  }

  /**
   A retry's back-off is honoured: a row that its owner put back until `runAt` is not claimed by any
   `claim` before the clock gets there. No repair pass can move it, for it has been tried.
   */
  lemma BackoffIsHonoured(start: Db, run: seq<Step>, states: seq<Sys>, i: nat, k: nat)
    requires WellFormed(start) && IsRun(start, run, states) && i < k < |run|
    requires run[i].Retry? && run[i].claimed.id in states[i].db.jobs
    requires Owned(states[i].db.jobs[run[i].claimed.id], run[i].claimed.owner, run[i].claimed.generation, states[i].db.clock)
    requires run[i].claimed.attempt < run[i].claimed.maxAttempts
    requires run[k].Claim? && run[k].id == run[i].claimed.id
    requires forall l :: i < l < k ==> !Claims(run[l], run[k].id)
    ensures run[i].runAt <= states[k].db.clock
  {
    var id := run[k].id;
    AccountedAt(start, run, states, i, id);
    ClaimTakesDueRow(start, run, states, k);
    KnownId(start, run, states, i, id);
    GoneAt(start, run, states, i, id);
    assert id in states[i + 1].db.jobs && BackedOff(states[i + 1].db.jobs[id], run[i].runAt);
    StaysBackedOff(start, run, states, i + 1, k, id, run[i].runAt);
  }

  // ------------------------------------------------------------------ leases

  /** The step gives this owner, under this generation, a lease of so many milliseconds. */
  predicate Grants(now: int, step: Step, id: int, row: Job, owner: string, generation: int, milliseconds: int) {
    match step
    case Claim(i, o, _, ms) => i == id && o == owner && ms == milliseconds && generation == row.generation + 1
    case ClaimAtStartup(i, _, _, o, ms) => i == id && o == owner && ms == milliseconds && generation == row.generation + 1
    case Renew(i, o, g, ms) =>
      i == id && o == owner && g == generation && ms == milliseconds && Owned(row, owner, generation, now)
    case _ => false
  }

  /** The step presents the token, to renew the lease or to give the row back. */
  predicate Presents(step: Step, id: int, owner: string, generation: int) {
    match step
    case Renew(i, o, g, _) => i == id && o == owner && g == generation
    case Complete(i, o, g) => i == id && o == owner && g == generation
    case DeadLetter(i, o, g) => i == id && o == owner && g == generation
    case Retry(claimed, _) => claimed.id == id && claimed.owner == owner && claimed.generation == generation
    case _ => false
  }

  /** The lease runs until `until`, and from then on there is none under this generation. */
  ghost predicate LeaseRuns(db: Db, id: int, owner: string, generation: int, until: int) {
    && id < db.nextJobId
    && (db.clock < until ==>
          && id in db.jobs && db.jobs[id].deadAt == None
          && db.jobs[id].generation == generation && db.jobs[id].lease == Some(Lease(owner, until)))
    && (id in db.jobs ==>
          && generation <= db.jobs[id].generation
          && (db.jobs[id].generation == generation ==>
                db.jobs[id].lease == None || db.jobs[id].lease == Some(Lease(owner, until))))
  }

  lemma GrantedLeaseRuns(now: int, step: Step, id: int, row: Job, after: Option<Job>, owner: string, generation: int, ms: int)
    requires Accounted(now, step, id, row, after) && Grants(now, step, id, row, owner, generation, ms)
    ensures after.Some? && after.value.deadAt == None
    ensures after.value.generation == generation && after.value.lease == Some(Lease(owner, now + 1000 * ms))
  {
  }

  lemma LeaseStep(
      now: int, later: int, step: Step, id: int, row: Job, after: Option<Job>, owner: string, generation: int, until: int)
    requires Accounted(now, step, id, row, after) && now <= later && !Presents(step, id, owner, generation)
    requires RowOk(row, id) && generation <= row.generation
    requires now < until ==> row.deadAt == None && row.generation == generation && row.lease == Some(Lease(owner, until))
    requires row.generation == generation ==> row.lease == None || row.lease == Some(Lease(owner, until))
    ensures later < until ==>
              after.Some? && after.value.deadAt == None && after.value.generation == generation
              && after.value.lease == Some(Lease(owner, until))
    ensures after.Some? ==> generation <= after.value.generation
    ensures after.Some? && after.value.generation == generation ==>
              after.value.lease == None || after.value.lease == Some(Lease(owner, until))
  {
  }

  lemma {:induction false} LeaseKeepsRunning(
      start: Db, run: seq<Step>, states: seq<Sys>, i: nat, j: nat, id: int, owner: string, generation: int, until: int)
    requires WellFormed(start) && IsRun(start, run, states) && i <= j <= |run|
    requires LeaseRuns(states[i].db, id, owner, generation, until)
    requires forall l :: i <= l < j ==> !Presents(run[l], id, owner, generation)
    ensures LeaseRuns(states[j].db, id, owner, generation, until)
    decreases j
  {
    hide Accounted, Presents, RowOk, WellFormed, Takes;
    if i < j {
      LeaseKeepsRunning(start, run, states, i, j - 1, id, owner, generation, until);
      GoneAt(start, run, states, j - 1, id);
      if id in states[j - 1].db.jobs {
        AccountedAt(start, run, states, j - 1, id);
        LeaseStep(states[j - 1].db.clock, states[j - 1 + 1].db.clock, run[j - 1], id, states[j - 1].db.jobs[id],
                  RowAt(states[j - 1 + 1].db.jobs, id), owner, generation, until);
      }
    }
  }

  /**
   How long a lease lasts: one that a claim or an accepted renewal gave at clock `t` for `ms`, and
   whose token nobody presents again, is held in a later state exactly as long as the clock is below
   `t + 1000 * ms`.
   */
  lemma LeaseLasts(
      start: Db, run: seq<Step>, states: seq<Sys>, i: nat, j: nat, id: int, owner: string, generation: int, ms: int)
    requires WellFormed(start) && IsRun(start, run, states) && i < j <= |run| && id in states[i].db.jobs
    requires Grants(states[i].db.clock, run[i], id, states[i].db.jobs[id], owner, generation, ms)
    requires forall l :: i < l < j ==> !Presents(run[l], id, owner, generation)
    ensures var db := states[j].db;
            (id in db.jobs && Owned(db.jobs[id], owner, generation, db.clock))
              <==> db.clock < states[i].db.clock + 1000 * ms
  {
    hide Accounted, Presents;
    var until := states[i].db.clock + 1000 * ms;
    AccountedAt(start, run, states, i, id);
    GrantedLeaseRuns(states[i].db.clock, run[i], id, states[i].db.jobs[id], RowAt(states[i + 1].db.jobs, id), owner, generation, ms);
    KnownId(start, run, states, i, id);
    GoneAt(start, run, states, i, id);
    LeaseKeepsRunning(start, run, states, i + 1, j, id, owner, generation, until);
  }

  // --------------------------------------------------------------- arguments

  lemma ArgumentsStep(now: int, step: Step, id: int, row: Job, after: Job)
    requires Accounted(now, step, id, row, Some(after)) && !(step.Merge? && step.id == id)
    ensures after.args == row.args
  {
  }

  /** Arguments change by merges alone. */
  lemma {:induction false} ArgumentsStay(start: Db, run: seq<Step>, states: seq<Sys>, i: nat, j: nat, id: int)
    requires WellFormed(start) && IsRun(start, run, states) && i <= j <= |run|
    requires id in states[i].db.jobs && forall l :: i <= l < j ==> !(run[l].Merge? && run[l].id == id)
    ensures id in states[j].db.jobs ==> states[j].db.jobs[id].args == states[i].db.jobs[id].args
    decreases j
  {
    hide Accounted, WellFormed, Takes, RowOk;
    if i < j {
      ArgumentsStay(start, run, states, i, j - 1, id);
      KnownId(start, run, states, i, id);
      IdsKnown(start, run, states, i, j - 1, id);
      GoneAt(start, run, states, j - 1, id);
      if id in states[j].db.jobs {
        AccountedAt(start, run, states, j - 1, id);
        ArgumentsStep(states[j - 1].db.clock, run[j - 1], id, states[j - 1].db.jobs[id], states[j - 1 + 1].db.jobs[id]);
      }
    }
  }

  /** A merge by the owner sticks: until the next merge of the row, every field the patch named has
      the patch's value and every other field the value it had before. */
  lemma MergeSticks(start: Db, run: seq<Step>, states: seq<Sys>, i: nat, j: nat)
    requires WellFormed(start) && IsRun(start, run, states) && i < j <= |run|
    requires run[i].Merge? && run[i].id in states[i].db.jobs && run[i].id in states[j].db.jobs
    requires Owned(states[i].db.jobs[run[i].id], run[i].owner, run[i].generation, states[i].db.clock)
    requires forall l :: i < l < j ==> !(run[l].Merge? && run[l].id == run[i].id)
    ensures Patched(states[i].db.jobs[run[i].id].args, run[i].patch, states[j].db.jobs[run[i].id].args)
  {
    hide Patched;
    var id := run[i].id;
    AccountedAt(start, run, states, i, id);
    ArgumentsStay(start, run, states, i + 1, j, id);
  }

  // ----------------------------------------------------------------- answers

  /** The answers of the fenced statements say whether the caller owned the row. */
  lemma AnswersTellOwnership(db: Db, id: int, owner: string, generation: int, ms: int, patch: Patch)
    ensures var owned := id in db.jobs && Owned(db.jobs[id], owner, generation, db.clock);
            && (RenewRow(db, id, owner, generation, ms).1 <==> owned)
            && (MergeRow(db, id, owner, generation, patch).1 <==> owned)
            && (CompleteRow(db, id, owner, generation).1 <==> owned)
            && (DeadLetterRow(db, id, owner, generation).1 <==> owned)
  {
  }

  /** Live, idle and due in an asked lane. */
  predicate IsDue(row: Job, now: int, lanes: set<Lane>) {
    row.deadAt == None && row.runAt <= now && Idle(row, now) && row.lane in lanes
  }

  /** When a claim finds nothing, every due row is held back by an older live row of its stream. */
  lemma DueRowsAreHeldBack(db: Db, id: int, lanes: set<Lane>)
    requires WellFormed(db) && id in db.jobs && IsDue(db.jobs[id], db.clock, lanes) && !Candidate(db, id, lanes)
    ensures exists b :: b < id && HeldBack(db.jobs, id, b)
  {
    var b := FirstBlocker(db.jobs, id);
    WaitsPointDown(db, id, b);
    assert HeldBack(db.jobs, id, b);
  }

  /** The queue never gets stuck: when a claim over all lanes finds nothing, every live row waits, in
      the end, for a row that is leased or not yet due. */
  lemma QueueIsNeverStuck(db: Db, id: int, lanes: set<Lane>) returns (root: int)
    requires WellFormed(db) && id in db.jobs && db.jobs[id].Live()
    requires forall lane: Lane :: lane in lanes
    requires forall other :: !Candidate(db, other, lanes)
    ensures root <= id && root in db.jobs && db.jobs[root].deadAt == None
    ensures !Idle(db.jobs[root], db.clock) || db.clock < db.jobs[root].runAt
  {
    var path := EveryWaitEnds(db, id);
    root := path[|path| - 1];
    assert !Candidate(db, root, lanes);
  }

  // --------------------------------------------------------------- histories

  /** The acknowledgement a step makes of a row, if its caller owns it. */
  predicate Acknowledges(now: int, step: Step, id: int, row: Job, owner: string, generation: int, ending: Ending) {
    && Owned(row, owner, generation, now)
    && match step
       case Complete(i, o, g) => i == id && o == owner && g == generation && ending == Acknowledged
       case DeadLetter(i, o, g) => i == id && o == owner && g == generation && ending == Buried
       case Retry(claimed, _) =>
         && claimed.id == id && claimed.owner == owner && claimed.generation == generation
         && ending == if claimed.attempt >= claimed.maxAttempts then Buried else Rescheduled
       case _ => false
  }

  /** The histories tell the truth: a claim of either kind is written down as what the worker was
      handed, an acknowledgement as what it ended, and nothing else is written. */
  lemma HistoriesAreTrue(start: Db, run: seq<Step>, states: seq<Sys>, k: nat)
    requires WellFormed(start) && IsRun(start, run, states) && k < |run|
    ensures run[k].Claim? || run[k].ClaimAtStartup? ==>
              var id, jobs := run[k].id, states[k + 1].db.jobs;
              && id in jobs
              && states[k + 1].issued == states[k].issued
                   + {ClaimedJob(id, jobs[id], jobs[id].attempts, jobs[id].maxAttempts, jobs[id].generation, run[k].owner)}
    ensures !run[k].Claim? && !run[k].ClaimAtStartup? ==> states[k + 1].issued == states[k].issued
    ensures forall id, owner, generation, ending ::
              id in states[k].db.jobs
              && Acknowledges(states[k].db.clock, run[k], id, states[k].db.jobs[id], owner, generation, ending) ==>
                var row := states[k].db.jobs[id];
                states[k + 1].settled == states[k].settled
                  + [Settlement(id, owner, generation, row.kind,
                                if row.args.ordering == None then None else Some(row.args.ordering.value.key), ending)]
    ensures (forall id, owner, generation, ending :: id in states[k].db.jobs ==>
               !Acknowledges(states[k].db.clock, run[k], id, states[k].db.jobs[id], owner, generation, ending)) ==>
              states[k + 1].settled == states[k].settled
  {
    hide WellFormed, Waits;
    assert Takes(states[k], run[k], states[k + 1]);
    var db, step := states[k].db, run[k];
    hide Apply;
    match step
    case Claim(_, _, _, _) => ClaimIsIssued(db, step);
    case ClaimAtStartup(_, _, _, _, _) => ClaimIsIssued(db, step);
    case Complete(i, o, g) =>
      assert i in db.jobs && Owned(db.jobs[i], o, g, db.clock) ==>
               Acknowledges(db.clock, step, i, db.jobs[i], o, g, Acknowledged);
    case DeadLetter(i, o, g) =>
      assert i in db.jobs && Owned(db.jobs[i], o, g, db.clock) ==>
               Acknowledges(db.clock, step, i, db.jobs[i], o, g, Buried);
    case Retry(c, _) =>
      assert c.id in db.jobs && Owned(db.jobs[c.id], c.owner, c.generation, db.clock) ==>
               Acknowledges(db.clock, step, c.id, db.jobs[c.id], c.owner, c.generation,
                            if c.attempt >= c.maxAttempts then Buried else Rescheduled);
    case _ =>
  }

  lemma ClaimIsIssued(db: Db, step: Step)
    requires Permitted(db, step) && (step.Claim? || step.ClaimAtStartup?)
    ensures step.id in Apply(db, step).jobs
    ensures var job := Apply(db, step).jobs[step.id];
            Issued(db, step) == {ClaimedJob(step.id, job, job.attempts, job.maxAttempts, job.generation, step.owner)}
  {
    hide PassesFences;
    var ms := step.milliseconds;
    assert Apply(db, step) == ClaimRow(db, step.id, step.owner, ms).0;
    hide Apply;
  }
}
