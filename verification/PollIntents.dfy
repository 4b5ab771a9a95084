/**
 The repair pass against the writers it repairs for: whatever key form a generation's work was ever
 filed under, the pass finds it, adds nothing beside it, and brings it to its own due time.
 */
module PollIntents {
  import opened Wrappers
  import opened Decimal
  import opened QueueModel
  import opened PollRepair
  import opened PollRepairProofs
  import opened OrderedEnqueue
  import opened RowHistory

  const FIVE_MINUTES := 5 * 60 * 1_000_000

  /** The key is one of the forms that were ever written for the generation, and `time` is when work
      under it should be due at the latest. */
  predicate Filed(q: Request, key: string, time: int) {
    var poll := "poll-expiration:" + Print(q.pollId);
    var generation := poll + ":generation:" + Print(q.expiresAt) + ":";
    || (key == generation + "initial" && time == q.target)
    || (key == generation + "repair" && time == q.target)
    || (key == generation + "reschedule" && time == q.expiresAt + FIVE_MINUTES)
    || (key == poll + ":reschedule:" + Print(q.expiresAt) && time == q.expiresAt + FIVE_MINUTES)
    || (key == poll + ":" + Print(q.target) && time == q.target)
    || (key == poll && time == q.target)
  }

  predicate Concerns(args: CallerArgs, q: Request) {
    args.pollId == Some(q.pollId) && args.generation == Some(q.expiresAt)
  }

  /** A live job for exactly this generation, under some key or under this one. */
  predicate LiveWork(jobs: map<int, Job>, q: Request, id: int) {
    id in jobs && jobs[id].deadAt == None && jobs[id].kind == POLL_KIND && Concerns(jobs[id].args.own, q)
  }

  predicate PendingWork(outbox: map<int, OutboxEvent>, q: Request, e: int) {
    && e in outbox && outbox[e].dispatchedAt == None && outbox[e].kind == POLL_KIND
    && outbox[e].payload.Payload? && Concerns(outbox[e].payload.args, q)
  }

  /** The pass has a decision to make: the request is sound, the generation is not historical, and
      nothing has been recorded for it. */
  ghost predicate Undecided(db: Db, q: Request, activation: int) {
    && LiveKeysUnique(db.jobs) && EventKeysUnique(db.outbox)
    && q.pollId > 0 && q.expiresAt > activation && (q.pollId, q.expiresAt) !in db.effects
  }

  /** Whatever a writer files is filed under a form the pass knows, and concerns its generation. */
  lemma WritersFile(pollId: int, expiresAt: int, kind: IntentKind, runAt: int, target: int)
    ensures var spec, q := ExpirationJob(pollId, expiresAt, kind, runAt), Request(pollId, expiresAt, target);
            && spec.kind == POLL_KIND && spec.lane == Core && spec.runAt == runAt && spec.maxAttempts == 25
            && Concerns(spec.args, q)
            && spec.logicalKey.Some?
            && Filed(q, spec.logicalKey.value, if kind == RescheduleIntent then expiresAt + FIVE_MINUTES else target)
  {
  }

  lemma {:induction false} FormsAreKnown(q: Request, key: string, time: int) returns (k: nat)
    requires Filed(q, key, time)
    ensures k < |BaseKeys(q)| && BaseKeys(q)[k] == key
    ensures Expected(q, Some(key)) == time
  {
    var poll := "poll-expiration:" + Print(q.pollId);
    var generation := poll + ":generation:" + Print(q.expiresAt) + ":";
    if key == generation + "reschedule" {
      NotTimed(q, key);
      k := 0;
    } else if key == poll + ":reschedule:" + Print(q.expiresAt) {
      NotTimed(q, key);
      k := 3;
    } else {
      k := if key == generation + "initial" then 1 else if key == generation + "repair" then 2
           else if key == poll then 5 else 4;
    }
  }

  /** The reschedule forms are told apart from all the others. */
  lemma NotTimed(q: Request, key: string)
    requires key == RescheduleKey(q) || key == LegacyRescheduleKey(q)
    ensures key != GenerationKey(q, "initial") && key != RepairKey(q)
    ensures key != PollKey(q) && key != PollKey(q) + ":" + Print(q.target)
  {
    hide Print;
    var poll := PollKey(q);
    var stem := poll + ":generation:" + Print(q.expiresAt) + ":";
    assert RescheduleKey(q)[|stem|] == 'r' && GenerationKey(q, "initial")[|stem|] == 'i';
    assert RescheduleKey(q)[|stem| + 2] == 's' && RepairKey(q)[|stem| + 2] == 'p';
    assert RescheduleKey(q)[|poll| + 1] == 'g' && LegacyRescheduleKey(q)[|poll| + 1] == 'r';
    assert GenerationKey(q, "initial")[|poll| + 1] == 'g' && RepairKey(q)[|poll| + 1] == 'g';
    var timed := poll + ":" + Print(q.target);
    assert timed[|poll| + 1] == Print(q.target)[0];
  }

  lemma KeysAreBase(jobs: map<int, Job>, q: Request, k: nat) returns (n: nat)
    requires k < |BaseKeys(q)|
    ensures n < |Keys(jobs, q)| && Keys(jobs, q)[n] == BaseKeys(q)[k]
    ensures n == if MalformedRepair(jobs, q).Some? then k + 1 else k
  {
    n := if MalformedRepair(jobs, q).Some? then k + 1 else k;
  }

  /** Once something is found the pass moves one row at most. */
  lemma FoundIsKept(db: Db, q: Request, activation: int)
    requires Undecided(db, q, activation)
    requires FirstLive(db.jobs, q, Keys(db.jobs, q)).Some? || FirstPending(db.outbox, q, Keys(db.jobs, q)).Some?
    ensures var (db', verdict) := Reconcile(db, q, activation);
            && (verdict == Ok(Healthy) || verdict == Ok(MoveEarlier) || verdict == Ok(MovePendingEarlier))
            && (FirstLive(db.jobs, q, Keys(db.jobs, q)).Some? ==> verdict != Ok(MovePendingEarlier) && db'.outbox == db.outbox)
            && db'.jobs.Keys == db.jobs.Keys && db'.outbox.Keys == db.outbox.Keys
            && db' == db.(jobs := db'.jobs, outbox := db'.outbox)
  {
    hide LiveKeysUnique, EventKeysUnique, Keys, Expected, EnqueueRow;
  }

  /** Live work under any form is found, and the pass adds nothing beside it. */
  lemma LiveWorkIsFound(db: Db, q: Request, activation: int, id: int, key: string, time: int)
    requires Undecided(db, q, activation) && Filed(q, key, time)
    requires LiveWork(db.jobs, q, id) && db.jobs[id].logicalKey == Some(key)
    ensures FirstLive(db.jobs, q, Keys(db.jobs, q)).Some?
    ensures var (db', verdict) := Reconcile(db, q, activation);
            && (verdict == Ok(Healthy) || verdict == Ok(MoveEarlier))
            && db'.jobs.Keys == db.jobs.Keys && db' == db.(jobs := db'.jobs)
  {
    var k := FormsAreKnown(q, key, time);
    var n := KeysAreBase(db.jobs, q, k);
    assert LiveIntent(db.jobs, q, Keys(db.jobs, q)[n], id);
    FoundIsKept(db, q, activation);
    hide Reconcile, Keys;
  }

  /** Pending work under any form is found too. */
  lemma PendingWorkIsFound(db: Db, q: Request, activation: int, e: int, key: string, time: int)
    requires Undecided(db, q, activation) && Filed(q, key, time)
    requires PendingWork(db.outbox, q, e) && db.outbox[e].logicalKey == Some(key)
    ensures FirstPending(db.outbox, q, Keys(db.jobs, q)).Some?
    ensures var (db', verdict) := Reconcile(db, q, activation);
            && (verdict == Ok(Healthy) || verdict == Ok(MoveEarlier) || verdict == Ok(MovePendingEarlier))
            && db'.jobs.Keys == db.jobs.Keys && db'.outbox.Keys == db.outbox.Keys
            && db' == db.(jobs := db'.jobs, outbox := db'.outbox)
  {
    var k := FormsAreKnown(q, key, time);
    var n := KeysAreBase(db.jobs, q, k);
    assert PendingIntent(db.outbox, q, Keys(db.jobs, q)[n], e);
    FoundIsKept(db, q, activation);
    hide Reconcile, Keys;
  }

  /** The only live work of a generation: a pass moves it to its form's time if it is late and nobody
      has started on it, and otherwise leaves everything as it is. */
  lemma OnlyWorkIsMoved(db: Db, q: Request, activation: int, id: int, key: string, time: int)
    requires Undecided(db, q, activation) && Filed(q, key, time)
    requires LiveWork(db.jobs, q, id) && db.jobs[id].logicalKey == Some(key)
    requires forall other :: LiveWork(db.jobs, q, other) ==> other == id
    ensures Reconcile(db, q, activation) ==
              if db.jobs[id].runAt > time && db.jobs[id].attempts <= 0 && Idle(db.jobs[id], db.clock)
              then (db.(jobs := db.jobs[id := db.jobs[id].(runAt := time)]), Ok(MoveEarlier))
              else (db, Ok(Healthy))
  {
    var k := FormsAreKnown(q, key, time);
    LiveWorkIsFound(db, q, activation, id, key, time);
    var found := FirstLive(db.jobs, q, Keys(db.jobs, q));
    assert LiveWork(db.jobs, q, found.value);
  }

  /** The same for the only pending work, when there is no live work. */
  lemma OnlyPendingIsMoved(db: Db, q: Request, activation: int, e: int, key: string, time: int)
    requires Undecided(db, q, activation) && Filed(q, key, time)
    requires PendingWork(db.outbox, q, e) && db.outbox[e].logicalKey == Some(key)
    requires forall id :: !LiveWork(db.jobs, q, id)
    requires forall other :: PendingWork(db.outbox, q, other) ==> other == e
    ensures var event := db.outbox[e];
            Reconcile(db, q, activation) ==
              if event.payload.runAt > time
              then (db.(outbox := db.outbox[e := event.(payload := event.payload.(runAt := time))]), Ok(MovePendingEarlier))
              else (db, Ok(Healthy))
  {
    var k := FormsAreKnown(q, key, time);
    PendingWorkIsFound(db, q, activation, e, key, time);
    var found := FirstPending(db.outbox, q, Keys(db.jobs, q));
    assert PendingWork(db.outbox, q, found.value);
    var live := FirstLive(db.jobs, q, Keys(db.jobs, q));
    assert live.Some? ==> LiveWork(db.jobs, q, live.value);
  }

  /** A live row occupies the repair key without being the generation's work. */
  predicate Squats(jobs: map<int, Job>, q: Request, id: int) {
    && id in jobs && jobs[id].deadAt == None && jobs[id].kind == POLL_KIND && !Concerns(jobs[id].args.own, q)
    && jobs[id].logicalKey == Some("poll-expiration:" + Print(q.pollId) + ":generation:" + Print(q.expiresAt) + ":" + "repair")
  }

  lemma SquatterIsFound(jobs: map<int, Job>, q: Request, squatter: int)
    requires LiveKeysUnique(jobs) && (Squats(jobs, q, squatter) || forall id :: !Squats(jobs, q, id))
    ensures MalformedRepair(jobs, q) == if Squats(jobs, q, squatter) then Some(squatter) else None
  {
    if Squats(jobs, q, squatter) {
      assert HoldsKey(jobs, squatter, POLL_KIND, RepairKey(q));
      LiveHolderIs(jobs, POLL_KIND, RepairKey(q), squatter);
    } else if MalformedRepair(jobs, q).Some? {
      assert Squats(jobs, q, MalformedRepair(jobs, q).value);
    }
  }

  /** With no work anywhere the pass creates what a repairing writer would have filed, due at the
      target; past a squatter it goes under the recovery key made from the squatter's id. */
  lemma MissingWorkIsCreated(db: Db, q: Request, activation: int, squatter: int)
    requires Undecided(db, q, activation)
    requires (forall id :: !LiveWork(db.jobs, q, id)) && (forall e :: !PendingWork(db.outbox, q, e))
    ensures var repair := ExpirationJob(q.pollId, q.expiresAt, RepairIntent, q.target);
            var recovery := repair.(logicalKey := Some(repair.logicalKey.value + ":recovery:" + Print(squatter)));
            var spec := if Squats(db.jobs, q, squatter) then recovery else repair;
            Squats(db.jobs, q, squatter) || (forall id :: !Squats(db.jobs, q, id)) ==>
              && Reconcile(db, q, activation).1 == Ok(Create)
              && (!KeyTaken(db.jobs, POLL_KIND, spec.logicalKey) ==>
                    var jobs := Reconcile(db, q, activation).0.jobs;
                    && db.nextJobId in jobs && jobs == db.jobs[db.nextJobId := jobs[db.nextJobId]]
                    && IsNew(jobs[db.nextJobId], spec, None, q.target))
  {
    var live, pending := FirstLive(db.jobs, q, Keys(db.jobs, q)), FirstPending(db.outbox, q, Keys(db.jobs, q));
    assert live.Some? ==> LiveWork(db.jobs, q, live.value);
    assert pending.Some? ==> PendingWork(db.outbox, q, pending.value);
    if Squats(db.jobs, q, squatter) || forall id :: !Squats(db.jobs, q, id) {
      SquatterIsFound(db.jobs, q, squatter);
    }
    EnqueueAnswers(db, RepairSpec(db.jobs, q), None, q.target);
  }

  /** A bad poll id and a malformed marker are refused, and nothing is touched. */
  lemma UnsoundIsRefused(db: Db, q: Request, activation: int)
    ensures Reconcile(db, q, activation).1.Err? <==>
              q.pollId <= 0 || ((q.pollId, q.expiresAt) in db.effects && db.effects[(q.pollId, q.expiresAt)] == Corrupt)
    ensures Reconcile(db, q, activation).1.Err? ==> Reconcile(db, q, activation).0 == db
  {
    hide StateOf, Decide, Act;
  }

  /** A generation that is done with, or older than the activation, is only ever marked. */
  lemma SettledGenerations(db: Db, q: Request, activation: int)
    requires q.pollId > 0 && ((q.pollId, q.expiresAt) in db.effects ==> db.effects[(q.pollId, q.expiresAt)] != Corrupt)
    requires (q.pollId, q.expiresAt) in db.effects || q.expiresAt <= activation
    ensures Reconcile(db, q, activation) ==
              (if (q.pollId, q.expiresAt) in db.effects then db
               else db.(effects := db.effects[(q.pollId, q.expiresAt) := Recorded(HistoricalBaseline)]),
               Ok(Completed))
  {
  }

  // ------------------------------------------------------- which form comes first

  /** No two of the forms spell the same key. */
  lemma FormsAreApart(q: Request, m: nat, l: nat)
    requires m < l < |BaseKeys(q)|
    ensures BaseKeys(q)[m] != BaseKeys(q)[l]
  {
    hide Print;
    var poll := PollKey(q);
    var stem := poll + ":generation:" + Print(q.expiresAt) + ":";
    SamePrefix(stem, "reschedule", "initial");
    SamePrefix(stem, "reschedule", "repair");
    SamePrefix(stem, "initial", "repair");
    assert "reschedule"[2] == 's' && "repair"[2] == 'p';
    OffStem(q, "reschedule");
    OffStem(q, "initial");
    OffStem(q, "repair");
    NotTimed(q, LegacyRescheduleKey(q));
    assert |poll + ":" + Print(q.target)| > |poll|;
  }

  lemma {:induction false} FirstLiveIsFirst(jobs: map<int, Job>, q: Request, keys: seq<string>, k: nat, id: int) returns (m: nat)
    requires LiveKeysUnique(jobs) && k < |keys| && LiveIntent(jobs, q, keys[k], id)
    ensures FirstLive(jobs, q, keys).Some? && m <= k && LiveIntent(jobs, q, keys[m], FirstLive(jobs, q, keys).value)
  {
    var holder := LiveHolder(jobs, POLL_KIND, Some(keys[0]));
    if holder.Some? && Matches(jobs[holder.value].args.own, q) {
      m := 0;
    } else {
      if k == 0 { LiveHolderIs(jobs, POLL_KIND, keys[0], id); }
      m := FirstLiveIsFirst(jobs, q, keys[1..], k - 1, id);
      m := m + 1;
    }
  }

  /**
   When work is live under two forms, the pass looks at the one that comes first in this order: the
   reschedule, the initial, the repair, the old reschedule, the timed and the bare form. The other
   row stays as it is.
   */
  lemma EarlierFormWins(db: Db, q: Request, activation: int, a: int, k: nat, b: int, l: nat)
    requires Undecided(db, q, activation) && db.nextJobId !in db.jobs
    requires LiveWork(db.jobs, q, a) && LiveWork(db.jobs, q, b) && k < l < 6
    requires var poll := "poll-expiration:" + Print(q.pollId);
             var generation := poll + ":generation:" + Print(q.expiresAt) + ":";
             var forms := [generation + "reschedule", generation + "initial", generation + "repair",
                           poll + ":reschedule:" + Print(q.expiresAt), poll + ":" + Print(q.target), poll];
             db.jobs[a].logicalKey == Some(forms[k]) && db.jobs[b].logicalKey == Some(forms[l])
    ensures var jobs := Reconcile(db, q, activation).0.jobs;
            b in jobs && jobs[b] == db.jobs[b]
  {
    var keys := Keys(db.jobs, q);
    var n := KeysAreBase(db.jobs, q, k);
    assert db.jobs[a].logicalKey == Some(BaseKeys(q)[k]) && db.jobs[b].logicalKey == Some(BaseKeys(q)[l]);
    assert LiveIntent(db.jobs, q, keys[n], a);
    var m := FirstLiveIsFirst(db.jobs, q, keys, n, a);
    var found := FirstLive(db.jobs, q, keys).value;
    LaterFormIsNotFound(db.jobs, q, k, l, m, n);
    assert found != b;
  }

  lemma LaterFormIsNotFound(jobs: map<int, Job>, q: Request, k: nat, l: nat, m: nat, n: nat)
    requires k < l < |BaseKeys(q)| && m <= n < |Keys(jobs, q)|
    requires n == if MalformedRepair(jobs, q).Some? then k + 1 else k
    ensures Keys(jobs, q)[m] != BaseKeys(q)[l]
  {
    if MalformedRepair(jobs, q).Some? {
      if m == 0 { RecoveryIsApart(q, MalformedRepair(jobs, q).value, l); } else { FormsAreApart(q, m - 1, l); }
    } else {
      FormsAreApart(q, m, l);
    }
  }

  lemma RecoveryIsApart(q: Request, blocking: int, l: nat)
    requires l < |BaseKeys(q)|
    ensures RecoveryKey(q, blocking) != BaseKeys(q)[l]
  {
    hide Print, BaseKeys;
    var poll := PollKey(q);
    var stem := poll + ":generation:" + Print(q.expiresAt) + ":";
    var rest := "repair" + (":recovery:" + Print(blocking));
    var key := RecoveryKey(q, blocking);
    assert key == stem + rest;
    SamePrefix(stem, rest, "reschedule");
    SamePrefix(stem, rest, "initial");
    SamePrefix(stem, rest, "repair");
    assert rest[2] == 'p' && "reschedule"[2] == 's';
    OffStem(q, rest);
    ListKeys(q, l);
  }

  lemma SamePrefix(stem: string, a: string, b: string)
    ensures a != b ==> stem + a != stem + b
  {
    assert (stem + a)[|stem|..] == a && (stem + b)[|stem|..] == b;
  }

  /** A key with a generation part is none of the last three forms. */
  lemma OffStem(q: Request, rest: string)
    ensures var key := PollKey(q) + ":generation:" + Print(q.expiresAt) + ":" + rest;
            key != LegacyRescheduleKey(q) && key != PollKey(q) + ":" + Print(q.target) && key != PollKey(q)
  {
    hide Print;
    var poll := PollKey(q);
    var key := poll + ":generation:" + Print(q.expiresAt) + ":" + rest;
    assert key[|poll| + 1] == 'g' && LegacyRescheduleKey(q)[|poll| + 1] == 'r';
    var timed := poll + ":" + Print(q.target);
    assert timed[|poll| + 1] == Print(q.target)[0] != 'g';
  }

  lemma ListKeys(q: Request, l: nat)
    requires l < |BaseKeys(q)|
    ensures BaseKeys(q)[l] in {GenerationKey(q, "reschedule"), GenerationKey(q, "initial"), GenerationKey(q, "repair"),
                               LegacyRescheduleKey(q), PollKey(q) + ":" + Print(q.target), PollKey(q)}
  {
  }
}
