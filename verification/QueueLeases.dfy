/** Leases, stream order and freedom from deadlock, over every run of the queue. */
module QueueLeases {
  import opened Wrappers
  import opened QueueModel
  import opened QueueInvariants
  import opened QueueRuns

  // ---------------------------------------------------------- lease fencing

  lemma {:induction false} RunKeepsLeases(start: Db, run: seq<Step>, states: seq<Sys>, i: nat)
    requires WellFormed(start) && IsRun(start, run, states) && i <= |run|
    ensures LeaseInv(states[i])
  {
    if i > 0 {
      RunKeepsLeases(start, run, states, i - 1);
      LeaseInvStep(states[i - 1], run[i - 1], states[i - 1 + 1]);
    }
  }

  predicate Valid(sys: Sys, claimed: ClaimedJob) {
    Holds(sys.db, claimed.id, claimed.owner, claimed.generation)
  }

  lemma LostStaysLost(a: Db, b: Db, claimed: ClaimedJob)
    requires Evolves(a, b) && SnapshotOk(a, claimed)
    requires !Holds(a, claimed.id, claimed.owner, claimed.generation)
    ensures !Holds(b, claimed.id, claimed.owner, claimed.generation)
  {
    if claimed.id in b.jobs { assert RowStep(a, claimed.id, b.jobs[claimed.id]); }
  }

  lemma LostStep(sys: Sys, step: Step, next: Sys, claimed: ClaimedJob)
    requires LeaseInv(sys) && Takes(sys, step, next)
    requires claimed in sys.issued && !Valid(sys, claimed)
    ensures claimed in next.issued && !Valid(next, claimed)
  {
    StepEvolves(sys.db, step);
    LostStaysLost(sys.db, next.db, claimed);
  }

  lemma LostAt(start: Db, run: seq<Step>, states: seq<Sys>, i: nat, claimed: ClaimedJob)
    requires WellFormed(start) && IsRun(start, run, states) && i < |run|
    requires claimed in states[i].issued && !Valid(states[i], claimed)
    ensures claimed in states[i + 1].issued && !Valid(states[i + 1], claimed)
  {
    RunKeepsLeases(start, run, states, i);
    LostStep(states[i], run[i], states[i + 1], claimed);
  }

  /** Once a claim's lease is no longer valid, it never is again. */
  lemma {:induction false} LeaseNeverRevives(start: Db, run: seq<Step>, states: seq<Sys>, i: nat, j: nat, claimed: ClaimedJob)
    requires WellFormed(start) && IsRun(start, run, states) && i <= j <= |run|
    requires claimed in states[i].issued && !Valid(states[i], claimed)
    ensures claimed in states[j].issued && !Valid(states[j], claimed)
  {
    if i < j {
      LeaseNeverRevives(start, run, states, i, j - 1, claimed);
      LostAt(start, run, states, j - 1, claimed);
    }
  }

  /** No (id, generation) is claimed twice, and no token is ever acknowledged twice. */
  lemma TokensAreUnique(start: Db, run: seq<Step>, states: seq<Sys>, i: nat)
    requires WellFormed(start) && IsRun(start, run, states) && i <= |run|
    ensures forall c, d | c in states[i].issued && d in states[i].issued ::
              c.id == d.id && c.generation == d.generation ==> c == d
    ensures forall m, n :: 0 <= m < n < |states[i].settled| ==>
              states[i].settled[m].id != states[i].settled[n].id
              || states[i].settled[m].generation != states[i].settled[n].generation
  {
    RunKeepsLeases(start, run, states, i);
  }

  predicate Exhausted(job: Job) { job.attempts == job.maxAttempts }

  /** A held claim knows the row's attempts, so a retry buries the job exactly when they are used up. */
  lemma RetryBuriesExactlyWhenExhausted(
      start: Db, run: seq<Step>, states: seq<Sys>, i: nat, claimed: ClaimedJob, runAt: int)
    requires WellFormed(start) && IsRun(start, run, states) && i <= |run|
    requires claimed in states[i].issued
    ensures var db := states[i].db;
            var (db', result) := RetryRow(db, claimed, runAt);
            && (result == Lost <==> !Valid(states[i], claimed))
            && (result == Dead <==> Valid(states[i], claimed) && Exhausted(db.jobs[claimed.id]))
            && (result == Dead ==> db' == UpdateJob(db, claimed.id, Killed(db.jobs[claimed.id], db.clock)))
            && (result == Scheduled ==>
                  db' == UpdateJob(db, claimed.id, db.jobs[claimed.id].(lease := None, runAt := runAt)))
  {
    RunKeepsLeases(start, run, states, i);
  }

  // ----------------------------------------------------------- stream order

  predicate SameStream(kind: string, key: Option<OrderingKey>, job: Job) {
    key.Some? && job.kind == kind && job.args.Key() == key
  }

  predicate SameStreams(a: Settlement, b: Settlement) {
    a.key.Some? && b.kind == a.kind && b.key == a.key
  }

  /** Everything still alive in a stream is younger than everything that finished in it. */
  ghost predicate Outlived(db: Db, s: Settlement) {
    && s.id < db.nextJobId
    && forall id :: id in db.jobs && db.jobs[id].Live() && SameStream(s.kind, s.key, db.jobs[id]) ==> s.id < id
  }

  ghost predicate FinishedInOrder(settled: seq<Settlement>) {
    forall i, j | 0 <= i < j < |settled| && SameStreams(settled[i], settled[j]) ::
      settled[i].Final() && settled[j].Final() ==> settled[i].id < settled[j].id
  }

  ghost predicate OneLeasePerStream(db: Db) {
    forall x, y | x in db.jobs && y in db.jobs && SameStream(db.jobs[x].kind, db.jobs[x].args.Key(), db.jobs[y]) ::
      db.jobs[x].Leased(db.clock) && db.jobs[y].Leased(db.clock) ==> x == y
  }

  ghost predicate StreamInv(sys: Sys) {
    && (forall i :: 0 <= i < |sys.settled| && sys.settled[i].Final() ==> Outlived(sys.db, sys.settled[i]))
    && FinishedInOrder(sys.settled)
  }

  lemma OutlivedStays(a: Db, b: Db, s: Settlement)
    requires Evolves(a, b) && Outlived(a, s)
    ensures Outlived(b, s)
  {
    forall id | id in b.jobs && b.jobs[id].Live() && SameStream(s.kind, s.key, b.jobs[id])
      ensures s.id < id
    {
      if id in a.jobs { assert RowStep(a, id, b.jobs[id]); }
    }
  }

  /** A finishing row was claimed, hence the oldest live row of its stream. */
  lemma FinishingIsOldest(db: Db, step: Step, s: Settlement)
    requires WellFormed(db) && Enabled(db, step) && Settled(db, step) == [s] && s.Final()
    ensures Outlived(Apply(db, step), s)
  {
    var db' := Apply(db, step);
    SettlingSpends(db, step);
    assert Settled(db, step)[0] == s;
    StepEvolves(db, step);
    forall id | id in db'.jobs && db'.jobs[id].Live() && SameStream(s.kind, s.key, db'.jobs[id])
      ensures s.id < id
    {
      if id in db.jobs {
        assert RowStep(db, id, db'.jobs[id]);
        assert EverClaimed(db.jobs[s.id]) && !EarlierBlocks(db.jobs, s.id, id);
      }
    }
  }

  lemma StreamInvStep(sys: Sys, step: Step, next: Sys)
    requires LeaseInv(sys) && StreamInv(sys) && Takes(sys, step, next)
    ensures StreamInv(next)
  {
    StepEvolves(sys.db, step);
    SettlingSpends(sys.db, step);
    forall i | 0 <= i < |sys.settled| && sys.settled[i].Final() ensures Outlived(next.db, sys.settled[i]) {
      OutlivedStays(sys.db, next.db, sys.settled[i]);
    }
    if Settled(sys.db, step) != [] {
      var s := Settled(sys.db, step)[0];
      assert Settled(sys.db, step) == [s];
      if s.Final() { FinishingIsOldest(sys.db, step, s); }
    }
  }

  lemma {:induction false} RunKeepsStreams(start: Db, run: seq<Step>, states: seq<Sys>, i: nat)
    requires WellFormed(start) && IsRun(start, run, states) && i <= |run|
    ensures StreamInv(states[i])
  {
    if i > 0 {
      RunKeepsStreams(start, run, states, i - 1);
      RunKeepsLeases(start, run, states, i - 1);
      StreamInvStep(states[i - 1], run[i - 1], states[i - 1 + 1]);
    }
  }

  /**
   In every state of every run: a live row that was ever claimed is the oldest live row of its
   stream, no stream has two live leases, and the rows of a stream finished in increasing id order.
   */
  lemma StreamsRunInOrder(start: Db, run: seq<Step>, states: seq<Sys>, i: nat)
    requires WellFormed(start) && IsRun(start, run, states) && i <= |run|
    ensures StreamOrder(states[i].db.jobs)
    ensures OneLeasePerStream(states[i].db)
    ensures FinishedInOrder(states[i].settled)
  {
    RunKeepsLeases(start, run, states, i);
    RunKeepsStreams(start, run, states, i);
    var jobs, now := states[i].db.jobs, states[i].db.clock;
    forall x, y | x in jobs && y in jobs && SameStream(jobs[x].kind, jobs[x].args.Key(), jobs[y])
      ensures jobs[x].Leased(now) && jobs[y].Leased(now) ==> x == y
    {
      if jobs[x].Leased(now) && jobs[y].Leased(now) {
        assert EverClaimed(jobs[x]) && EverClaimed(jobs[y]);
        assert !EarlierBlocks(jobs, x, y) && !EarlierBlocks(jobs, y, x);
      }
    }
  }

  // ----------------------------------------------------------- no deadlock

  ghost predicate Blocks(jobs: map<int, Job>, id: int, blocker: int) {
    id in jobs && (PredecessorBlocks(jobs, id, blocker) || EarlierBlocks(jobs, id, blocker))
  }

  /** Every wait is for a live row with a smaller id, so waiting never goes round in a circle. */
  lemma WaitsPointDown(db: Db, id: int, blocker: int)
    requires WellFormed(db) && Blocks(db.jobs, id, blocker)
    ensures blocker < id && blocker in db.jobs && db.jobs[blocker].Live()
  {
  }

  ghost function FirstBlocker(jobs: map<int, Job>, id: int): (blocker: int)
    requires id in jobs && !PassesFences(jobs, id)
    ensures Blocks(jobs, id, blocker)
  {
    if exists p :: PredecessorBlocks(jobs, id, p) then
      var p :| PredecessorBlocks(jobs, id, p);
      p
    else
      var e :| EarlierBlocks(jobs, id, e);
      e
  }

  /** `path` goes from `id` along blockers. */
  ghost predicate WaitPath(jobs: map<int, Job>, path: seq<int>, id: int) {
    && path != []
    && path[0] == id
    && forall k :: 0 < k < |path| ==> Blocks(jobs, path[k - 1], path[k])
  }

  /** From any live row, following blockers ends at a live row that passes both fences. */
  lemma {:induction false} EveryWaitEnds(db: Db, id: int) returns (path: seq<int>)
    requires WellFormed(db) && id in db.jobs && db.jobs[id].Live()
    ensures WaitPath(db.jobs, path, id)
    ensures var root := path[|path| - 1];
            root in db.jobs && db.jobs[root].Live() && PassesFences(db.jobs, root) && root <= id
    decreases id
  {
    if PassesFences(db.jobs, id) {
      path := [id];
    } else {
      var blocker := FirstBlocker(db.jobs, id);
      WaitsPointDown(db, id, blocker);
      var rest := EveryWaitEnds(db, blocker);
      path := [id] + rest;
      forall k | 0 < k < |path| ensures Blocks(db.jobs, path[k - 1], path[k]) {
        if k > 1 { assert Blocks(db.jobs, rest[k - 2], rest[k - 1]); }
      }
    }
  }

  /** The oldest live row of all is claimable as soon as it is due and unleased. */
  lemma OldestIsClaimable(db: Db, id: int, lanes: set<Lane>)
    requires WellFormed(db) && id in db.jobs && db.jobs[id].Live()
    requires forall other :: other in db.jobs && db.jobs[other].Live() ==> id <= other
    ensures Candidate(db, id, lanes) <==> Due(db, id, lanes)
  {
    forall b | Blocks(db.jobs, id, b) ensures false { WaitsPointDown(db, id, b); }
    assert PassesFences(db.jobs, id) by {
      forall p ensures !PredecessorBlocks(db.jobs, id, p) && !EarlierBlocks(db.jobs, id, p) {
        assert !Blocks(db.jobs, id, p);
      }
    }
  }
}
