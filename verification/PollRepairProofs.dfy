/** What a repair pass guarantees about its generation, and what it leaves alone. */
module PollRepairProofs {
  import opened Wrappers
  import opened Decimal
  import opened QueueModel
  import opened PollRepair

  /** Some intent of the generation is due in time, or is already being worked on. */
  ghost predicate Covered(db: Db, q: Request) {
    || ((q.pollId, q.expiresAt) in db.effects && db.effects[(q.pollId, q.expiresAt)].Recorded?)
    || (exists k, id :: 0 <= k < |Keys(db.jobs, q)| && LiveInTime(db, q, Keys(db.jobs, q)[k], id))
    || (exists k, id :: 0 <= k < |Keys(db.jobs, q)| && PendingInTime(db, q, Keys(db.jobs, q)[k], id))
  }

  ghost predicate LiveInTime(db: Db, q: Request, key: string, id: int) {
    && LiveIntent(db.jobs, q, key, id)
    && (|| db.jobs[id].runAt <= Expected(q, Some(key))
        || db.jobs[id].Leased(db.clock)
        || db.jobs[id].attempts > 0)
  }

  ghost predicate PendingInTime(db: Db, q: Request, key: string, id: int) {
    PendingIntent(db.outbox, q, key, id) && db.outbox[id].payload.runAt <= Expected(q, Some(key))
  }

  /** A malformed row holds the repair key and another row holds the recovery key made from it. */
  ghost predicate RecoveryBlocked(jobs: map<int, Job>, q: Request) {
    && MalformedRepair(jobs, q).Some?
    && LiveHolder(jobs, POLL_KIND, Some(RecoveryKey(q, MalformedRepair(jobs, q).value))).Some?
  }

  lemma LiveHolderIs(jobs: map<int, Job>, kind: string, key: string, id: int)
    requires LiveKeysUnique(jobs) && HoldsKey(jobs, id, kind, key)
    ensures LiveHolder(jobs, kind, Some(key)) == Some(id)
  {
  }

  lemma EventHolderIs(outbox: map<int, OutboxEvent>, kind: string, key: string, id: int)
    requires EventKeysUnique(outbox) && HasEventKey(outbox, id, kind, key)
    ensures EventHolder(outbox, kind, Some(key)) == Some(id)
  {
  }

  /** Repair and recovery keys are never mistaken for reschedule keys. */
  lemma RepairKeysExpectTarget(q: Request, blocking: int)
    ensures Expected(q, Some(RepairKey(q))) == q.target
    ensures Expected(q, Some(RecoveryKey(q, blocking))) == q.target
    ensures RecoveryKey(q, blocking) != RepairKey(q)
  {
    NotRescheduleKey(q, "");
    NotRescheduleKey(q, ":recovery:" + Print(blocking));
    assert RepairKey(q) + "" == RepairKey(q);
    assert RecoveryKey(q, blocking) == RepairKey(q) + (":recovery:" + Print(blocking));
  }

  lemma NotRescheduleKey(q: Request, suffix: string)
    ensures RepairKey(q) + suffix != RescheduleKey(q)
    ensures RepairKey(q) + suffix != LegacyRescheduleKey(q)
  {
    var poll := PollKey(q);
    var stem := poll + ":generation:" + Print(q.expiresAt) + ":";
    var key := RepairKey(q) + suffix;
    assert key == stem + ("repair" + suffix) && RescheduleKey(q) == stem + "reschedule";
    assert key[|stem| + 2] == 'p' && RescheduleKey(q)[|stem| + 2] == 's';
    assert key[|poll| + 1] == 'g' && LegacyRescheduleKey(q)[|poll| + 1] == 'r';
  }

  /** Two tables with the same intents under a list of keys answer the lookups alike. */
  lemma {:induction false} FirstLiveFrame(a: map<int, Job>, b: map<int, Job>, q: Request, keys: seq<string>)
    requires LiveKeysUnique(a) && LiveKeysUnique(b)
    requires forall key, id :: key in keys ==> (LiveIntent(a, q, key, id) <==> LiveIntent(b, q, key, id))
    ensures FirstLive(a, q, keys) == FirstLive(b, q, keys)
  {
    if keys != [] {
      var x := LiveHolder(a, POLL_KIND, Some(keys[0]));
      var y := LiveHolder(b, POLL_KIND, Some(keys[0]));
      if x.Some? && LiveIntent(a, q, keys[0], x.value) { LiveHolderIs(b, POLL_KIND, keys[0], x.value); }
      if y.Some? && LiveIntent(b, q, keys[0], y.value) { LiveHolderIs(a, POLL_KIND, keys[0], y.value); }
      FirstLiveFrame(a, b, q, keys[1..]);
    }
  }

  lemma {:induction false} FirstPendingFrame(a: map<int, OutboxEvent>, b: map<int, OutboxEvent>, q: Request, keys: seq<string>)
    requires EventKeysUnique(a) && EventKeysUnique(b)
    requires forall key, id :: key in keys ==> (PendingIntent(a, q, key, id) <==> PendingIntent(b, q, key, id))
    ensures FirstPending(a, q, keys) == FirstPending(b, q, keys)
  {
    if keys != [] {
      var x := EventHolder(a, POLL_KIND, Some(keys[0]));
      var y := EventHolder(b, POLL_KIND, Some(keys[0]));
      if x.Some? && PendingIntent(a, q, keys[0], x.value) { EventHolderIs(b, POLL_KIND, keys[0], x.value); }
      if y.Some? && PendingIntent(b, q, keys[0], y.value) { EventHolderIs(a, POLL_KIND, keys[0], y.value); }
      FirstPendingFrame(a, b, q, keys[1..]);
    }
  }

  /** Moving a row's due time disturbs none of the lookups. */
  lemma MoveJobKeepsLookups(a: Db, q: Request, id: int, runAt: int)
    requires LiveKeysUnique(a.jobs) && id in a.jobs
    ensures var b := MoveJob(a, id, runAt);
            && Keys(b.jobs, q) == Keys(a.jobs, q)
            && FirstLive(b.jobs, q, Keys(a.jobs, q)) == FirstLive(a.jobs, q, Keys(a.jobs, q))
  {
    var b := MoveJob(a, id, runAt);
    var x := LiveHolder(a.jobs, POLL_KIND, Some(RepairKey(q)));
    assert forall other, key :: HoldsKey(a.jobs, other, POLL_KIND, key) <==> HoldsKey(b.jobs, other, POLL_KIND, key);
    if x.Some? { LiveHolderIs(b.jobs, POLL_KIND, RepairKey(q), x.value); }
    FirstLiveFrame(a.jobs, b.jobs, q, Keys(a.jobs, q));
  }

  lemma MoveEventKeepsLookups(a: Db, q: Request, id: int, runAt: int)
    requires EventKeysUnique(a.outbox)
    requires id in a.outbox && a.outbox[id].payload.Payload?
    ensures FirstPending(MoveEvent(a, id, runAt).outbox, q, Keys(a.jobs, q))
         == FirstPending(a.outbox, q, Keys(a.jobs, q))
  {
    FirstPendingFrame(a.outbox, MoveEvent(a, id, runAt).outbox, q, Keys(a.jobs, q));
  }

  ghost predicate Creatable(a: Db, q: Request) {
    && LiveKeysUnique(a.jobs)
    && a.nextJobId !in a.jobs
    && FirstLive(a.jobs, q, Keys(a.jobs, q)).None?
    && !RecoveryBlocked(a.jobs, q)
  }

  ghost function WithRepair(a: Db, q: Request): Db { EnqueueRow(a, RepairSpec(a.jobs, q), None, q.target).0 }

  lemma RepairKeyIsFree(a: Db, q: Request)
    requires Creatable(a, q)
    ensures LiveHolder(a.jobs, POLL_KIND, RepairSpec(a.jobs, q).logicalKey).None?
    ensures Keys(a.jobs, q)[if MalformedRepair(a.jobs, q).None? then 2 else 0] == RepairSpec(a.jobs, q).logicalKey.value
    ensures Expected(q, RepairSpec(a.jobs, q).logicalKey) == q.target
  {
    var bad := MalformedRepair(a.jobs, q);
    RepairKeysExpectTarget(q, if bad.Some? then bad.value else 0);
    if bad.None? {
      var x := LiveHolder(a.jobs, POLL_KIND, Some(RepairKey(q)));
      if x.Some? { assert LiveIntent(a.jobs, q, Keys(a.jobs, q)[2], x.value); }
    }
  }

  lemma CreateKeepsKeys(a: Db, q: Request)
    requires Creatable(a, q)
    ensures var b := WithRepair(a, q);
            && LiveKeysUnique(b.jobs)
            && b.jobs == a.jobs[a.nextJobId := NewJob(RepairSpec(a.jobs, q), None, q.target)]
            && MalformedRepair(b.jobs, q) == MalformedRepair(a.jobs, q)
  {
    var b := WithRepair(a, q);
    RepairKeyIsFree(a, q);
    EnqueueKeepsUnique(a, RepairSpec(a.jobs, q), None, q.target);
    var bad := MalformedRepair(a.jobs, q);
    LiveHolderIs(b.jobs, POLL_KIND, RepairKey(q), if bad.None? then a.nextJobId else bad.value);
  }

  /** A created repair row is what the next pass finds. */
  lemma CreatedIsFound(a: Db, q: Request)
    requires Creatable(a, q)
    ensures FirstLive(WithRepair(a, q).jobs, q, Keys(WithRepair(a, q).jobs, q)) == Some(a.nextJobId)
  {
    var b := WithRepair(a, q);
    RepairKeyIsFree(a, q);
    CreateKeepsKeys(a, q);
    var keys := Keys(a.jobs, q);
    assert Keys(b.jobs, q) == keys;
    assert LiveIntent(b.jobs, q, keys[if MalformedRepair(a.jobs, q).None? then 2 else 0], a.nextJobId);
    var found := FirstLive(b.jobs, q, keys);
    if found.value != a.nextJobId {
      var k :| 0 <= k < |keys| && LiveIntent(b.jobs, q, keys[k], found.value);
      assert LiveIntent(a.jobs, q, keys[k], found.value);
    }
  }

  lemma FoundLiveCovers(db: Db, q: Request, id: int)
    requires FirstLive(db.jobs, q, Keys(db.jobs, q)) == Some(id) && id in db.jobs
    requires || db.jobs[id].runAt <= Expected(q, db.jobs[id].logicalKey)
             || db.jobs[id].Leased(db.clock)
             || db.jobs[id].attempts > 0
    ensures Covered(db, q)
  {
    var k :| 0 <= k < |Keys(db.jobs, q)| && LiveIntent(db.jobs, q, Keys(db.jobs, q)[k], id);
    assert LiveInTime(db, q, Keys(db.jobs, q)[k], id);
  }

  lemma FoundPendingCovers(db: Db, q: Request, id: int)
    requires FirstPending(db.outbox, q, Keys(db.jobs, q)) == Some(id)
    requires id in db.outbox && db.outbox[id].payload.Payload?
    requires db.outbox[id].payload.runAt <= Expected(q, db.outbox[id].logicalKey)
    ensures Covered(db, q)
  {
    var k :| 0 <= k < |Keys(db.jobs, q)| && PendingIntent(db.outbox, q, Keys(db.jobs, q)[k], id);
    assert PendingInTime(db, q, Keys(db.jobs, q)[k], id);
  }

  ghost predicate Accepted(db: Db, q: Request) {
    && q.pollId > 0
    && ((q.pollId, q.expiresAt) in db.effects ==> db.effects[(q.pollId, q.expiresAt)].Recorded?)
  }

  /** The pass must create a row but the only key left for it is taken. */
  ghost predicate CannotCreate(db: Db, q: Request, activation: int) {
    && q.expiresAt > activation
    && Decide(StateOf(db, q)) == Create
    && RecoveryBlocked(db.jobs, q)
  }

  /** A blocked creation only burns an id. */
  lemma BlockedChangesNothing(a: Db, q: Request)
    requires RecoveryBlocked(a.jobs, q)
    ensures WithRepair(a, q) == a.(nextJobId := a.nextJobId + 1)
  {
  }

  lemma UncoveredWhenNothingFound(a: Db, b: Db, q: Request)
    requires LiveKeysUnique(a.jobs) && EventKeysUnique(a.outbox)
    requires b == a.(nextJobId := b.nextJobId)
    requires Decide(StateOf(a, q)) == Create
    ensures !Covered(b, q)
  {
  }

  /**
   An accepted pass leaves the generation covered, with one exception: it had to create a row
   while a malformed row held the repair key and some other row held the recovery key.
   */
  lemma ReconcileCovers(a: Db, q: Request, activation: int)
    requires LiveKeysUnique(a.jobs) && EventKeysUnique(a.outbox) && a.nextJobId !in a.jobs
    requires Accepted(a, q)
    ensures Reconcile(a, q, activation).1.Ok?
    ensures Covered(Reconcile(a, q, activation).0, q) <==> !CannotCreate(a, q, activation)
  {
    var b := Reconcile(a, q, activation).0;
    var live := FirstLive(a.jobs, q, Keys(a.jobs, q));
    var pending := FirstPending(a.outbox, q, Keys(a.jobs, q));
    if q.expiresAt > activation {
      match Decide(StateOf(a, q))
      case Completed =>
      case Healthy =>
        if live.Some? { FoundLiveCovers(a, q, live.value); } else { FoundPendingCovers(a, q, pending.value); }
      case MoveEarlier =>
        MoveJobKeepsLookups(a, q, live.value, StateOf(a, q).liveExpected);
        FoundLiveCovers(b, q, live.value);
      case MovePendingEarlier =>
        MoveEventKeepsLookups(a, q, pending.value, StateOf(a, q).pendingExpected);
        FoundPendingCovers(b, q, pending.value);
      case Create =>
        assert b == WithRepair(a, q);
        CreateCovers(a, q);
    }
  }

  lemma CreateCovers(a: Db, q: Request)
    requires LiveKeysUnique(a.jobs) && EventKeysUnique(a.outbox) && a.nextJobId !in a.jobs
    requires Decide(StateOf(a, q)) == Create
    ensures Covered(WithRepair(a, q), q) <==> !RecoveryBlocked(a.jobs, q)
  {
    var b := WithRepair(a, q);
    if RecoveryBlocked(a.jobs, q) {
      BlockedChangesNothing(a, q);
      UncoveredWhenNothingFound(a, b, q);
    } else {
      CreatedIsFound(a, q);
      RepairKeyIsFree(a, q);
      CreateKeepsKeys(a, q);
      FoundLiveCovers(b, q, a.nextJobId);
    }
  }

  /** The exception is real: two rows with foreign arguments under the two keys leave a hole. */
  lemma RecoveryCanBeBlocked(q: Request, activation: int)
    requires q.pollId > 0 && q.expiresAt > activation
    ensures var nobody := CallerArgs(None, None, None, None, map[]);
            var first := JobSpec(Core, POLL_KIND, nobody, Some(RepairKey(q)), q.target, 25);
            var second := JobSpec(Core, POLL_KIND, nobody, Some(RecoveryKey(q, 1)), q.target, 25);
            var jobs := map[1 := NewJob(first, None, q.target), 2 := NewJob(second, None, q.target)];
            var db := Db(jobs, 3, map[], 1, map[], map[], map[], 0);
            && LiveKeysUnique(db.jobs)
            && Reconcile(db, q, activation) == (db.(nextJobId := 4), Ok(Create))
            && !Covered(Reconcile(db, q, activation).0, q)
  {
    var nobody := CallerArgs(None, None, None, None, map[]);
    var first := JobSpec(Core, POLL_KIND, nobody, Some(RepairKey(q)), q.target, 25);
    var second := JobSpec(Core, POLL_KIND, nobody, Some(RecoveryKey(q, 1)), q.target, 25);
    var jobs := map[1 := NewJob(first, None, q.target), 2 := NewJob(second, None, q.target)];
    var db := Db(jobs, 3, map[], 1, map[], map[], map[], 0);
    RepairKeysExpectTarget(q, 1);
    LiveHolderIs(jobs, POLL_KIND, RepairKey(q), 1);
    LiveHolderIs(jobs, POLL_KIND, RecoveryKey(q, 1), 2);
    assert forall key, id :: !LiveIntent(jobs, q, key, id);
    assert Decide(StateOf(db, q)) == Create;
    BlockedChangesNothing(db, q);
    UncoveredWhenNothingFound(db, db.(nextJobId := 4), q);
  }

  /** After an action the decision is settled: nothing is left to move. */
  lemma ActSettles(a: Db, q: Request)
    requires LiveKeysUnique(a.jobs) && EventKeysUnique(a.outbox) && a.nextJobId !in a.jobs
    requires (q.pollId, q.expiresAt) !in a.effects
    ensures var b := Act(a, q, Decide(StateOf(a, q)));
            Decide(StateOf(b, q)) ==
              if Decide(StateOf(a, q)) == Create && RecoveryBlocked(a.jobs, q) then Create else Healthy
  {
    match Decide(StateOf(a, q))
    case Completed =>
    case Healthy =>
    case MoveEarlier =>
      MoveJobKeepsLookups(a, q, FirstLive(a.jobs, q, Keys(a.jobs, q)).value, StateOf(a, q).liveExpected);
    case MovePendingEarlier =>
      MoveEventKeepsLookups(a, q, FirstPending(a.outbox, q, Keys(a.jobs, q)).value, StateOf(a, q).pendingExpected);
    case Create =>
      if RecoveryBlocked(a.jobs, q) {
        BlockedChangesNothing(a, q);
      } else {
        CreateKeepsKeys(a, q);
        CreatedIsFound(a, q);
        RepairKeyIsFree(a, q);
      }
  }

  /** A second pass right after the first changes no row, and reports the settled verdict. */
  lemma ReconcileTwice(a: Db, q: Request, activation: int)
    requires LiveKeysUnique(a.jobs) && EventKeysUnique(a.outbox) && a.nextJobId !in a.jobs
    requires Accepted(a, q)
    ensures var b := Reconcile(a, q, activation).0;
            var (c, verdict) := Reconcile(b, q, activation);
            && c == b.(nextJobId := c.nextJobId)
            && (!CannotCreate(a, q, activation) ==> c == b)
            && verdict == Ok(if (q.pollId, q.expiresAt) in b.effects then Completed
                             else if CannotCreate(a, q, activation) then Create
                             else Healthy)
  {
    if q.expiresAt > activation && (q.pollId, q.expiresAt) !in a.effects {
      ActSettles(a, q);
      if CannotCreate(a, q, activation) {
        BlockedChangesNothing(a, q);
        BlockedChangesNothing(WithRepair(a, q), q);
      }
    }
  }

  /** An existing row either stays as it was or is an idle, untried one whose due time came nearer. */
  ghost predicate JobOnlyEarlier(a: Db, id: int, job: Job)
    requires id in a.jobs
  {
    || job == a.jobs[id]
    || (&& a.jobs[id].Live()
        && !a.jobs[id].Leased(a.clock)
        && a.jobs[id].attempts <= 0
        && job.runAt < a.jobs[id].runAt
        && job == a.jobs[id].(runAt := job.runAt))
  }

  ghost predicate EventOnlyEarlier(a: OutboxEvent, b: OutboxEvent) {
    || b == a
    || (&& a.Pending()
        && a.payload.Payload?
        && b.payload.Payload?
        && b.payload.runAt < a.payload.runAt
        && b == a.(payload := a.payload.(runAt := b.payload.runAt)))
  }

  ghost predicate Undisturbed(a: Db, q: Request, b: Db) {
    && a.jobs.Keys <= b.jobs.Keys <= a.jobs.Keys + {a.nextJobId}
    && b.outbox.Keys == a.outbox.Keys
    && (forall id :: id in a.jobs ==> JobOnlyEarlier(a, id, b.jobs[id]))
    && (a.nextJobId in b.jobs ==> b.jobs[a.nextJobId] == NewJob(RepairSpec(a.jobs, q), None, q.target))
    && (forall id :: id in a.outbox ==> EventOnlyEarlier(a.outbox[id], b.outbox[id]))
    && (forall at :: at in a.effects ==> at in b.effects && b.effects[at] == a.effects[at])
    && b.effects.Keys <= a.effects.Keys + {(q.pollId, q.expiresAt)}
    && b == a.(jobs := b.jobs, outbox := b.outbox, effects := b.effects, nextJobId := b.nextJobId)
  }

  lemma OutcomesUndisturbed(a: Db, q: Request, outcome: Outcome)
    requires a.nextJobId !in a.jobs
    ensures Undisturbed(a, q, a) && Undisturbed(a, q, RecordEffect(a, q.pollId, q.expiresAt, outcome).0)
  {
  }

  lemma MoveJobUndisturbed(a: Db, q: Request, id: int, runAt: int)
    requires a.nextJobId !in a.jobs && id in a.jobs
    requires JobOnlyEarlier(a, id, a.jobs[id].(runAt := runAt))
    ensures Undisturbed(a, q, MoveJob(a, id, runAt))
  {
  }

  lemma MoveEventUndisturbed(a: Db, q: Request, id: int, runAt: int)
    requires a.nextJobId !in a.jobs && id in a.outbox && a.outbox[id].payload.Payload?
    requires a.outbox[id].Pending() && runAt < a.outbox[id].payload.runAt
    ensures Undisturbed(a, q, MoveEvent(a, id, runAt))
  {
  }

  lemma CreateUndisturbed(a: Db, q: Request)
    requires a.nextJobId !in a.jobs
    ensures Undisturbed(a, q, WithRepair(a, q))
  {
  }

  lemma ActUndisturbed(a: Db, q: Request, action: RepairAction)
    requires a.nextJobId !in a.jobs && action == Decide(StateOf(a, q))
    ensures Undisturbed(a, q, Act(a, q, action))
  {
    match action
    case Completed =>
    case Healthy =>
    case MoveEarlier =>
      MoveJobUndisturbed(a, q, FirstLive(a.jobs, q, Keys(a.jobs, q)).value, StateOf(a, q).liveExpected);
    case MovePendingEarlier =>
      MoveEventUndisturbed(a, q, FirstPending(a.outbox, q, Keys(a.jobs, q)).value, StateOf(a, q).pendingExpected);
    case Create => CreateUndisturbed(a, q);
  }

  /**
   No pass deletes a row, moves work later, or touches a leased, attempted or dead row; recorded
   outcomes stay; at most one row appears, and it is this generation's fresh intent.
   */
  lemma ReconcileFrame(a: Db, q: Request, activation: int)
    requires a.nextJobId !in a.jobs
    ensures Undisturbed(a, q, Reconcile(a, q, activation).0)
  {
    hide Undisturbed, RecordEffect, StateOf, Decide, Act;
    OutcomesUndisturbed(a, q, HistoricalBaseline);
    if Accepted(a, q) && q.expiresAt > activation {
      ActUndisturbed(a, q, Decide(StateOf(a, q)));
    }
  }

  /** Whatever is recorded first for a generation stays, and only that outcome is accepted again. */
  lemma FirstOutcomeWins(a: Db, pollId: int, generation: int, first: Outcome, second: Outcome)
    ensures var at := (pollId, generation);
            RecordEffect(a, pollId, generation, first).1.Ok? <==>
              at !in a.effects || a.effects[at] == Recorded(first)
    ensures RecordEffect(a, pollId, generation, first).1.Ok? ==>
              var b := RecordEffect(a, pollId, generation, first).0;
              && b == a.(effects := a.effects[(pollId, generation) := Recorded(first)])
              && RecordEffect(b, pollId, generation, second).0 == b
              && (RecordEffect(b, pollId, generation, second).1.Ok? <==> second == first)
    ensures RecordEffect(a, pollId, generation, first).1.Err? ==> RecordEffect(a, pollId, generation, first).0 == a
  {
    assert forall at :: at in a.effects ==> a.effects[at := a.effects[at]] == a.effects;
  }
}
