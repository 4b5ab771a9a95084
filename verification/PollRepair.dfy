/**
 Repair of one exact poll-expiration generation (src/jobs.rs): look the generation's intents up
 under every key they may have been filed under, decide, and move or create at most one row.
 */
module PollRepair {
  import opened Wrappers
  import opened Decimal
  import opened QueueModel

  const RESCHEDULE_DELAY := 300_000_000
  const DEFAULT_MAX_ATTEMPTS: I32 := 25

  datatype RepairAction = Healthy | MoveEarlier | MovePendingEarlier | Completed | Create

  datatype RepairState = RepairState(
    effectRecorded: bool,
    liveRunAt: Option<int>,
    liveExpected: int,
    liveLeased: bool,
    liveAttempted: bool,
    pendingRunAt: Option<int>,
    pendingExpected: int)

  /** The decision table; the expected times are read only beside a present row. */
  function Decide(state: RepairState): RepairAction {
    if state.effectRecorded then Completed
    else if state.liveRunAt.Some? then
      if !state.liveLeased && !state.liveAttempted && state.liveRunAt.value > state.liveExpected
      then MoveEarlier else Healthy
    else if state.pendingRunAt.Some? then
      if state.pendingRunAt.value > state.pendingExpected then MovePendingEarlier else Healthy
    else Create
  }

  /** One poll generation and the times its repair works with; `expiresAt` is the generation. */
  datatype Request = Request(pollId: int, expiresAt: int, target: int)

  // ---------------------------------------------------------------- keys

  function PollKey(q: Request): string { "poll-expiration:" + Print(q.pollId) }

  function GenerationKey(q: Request, suffix: string): string {
    PollKey(q) + ":generation:" + Print(q.expiresAt) + ":" + suffix
  }

  datatype IntentKind = InitialIntent | RescheduleIntent | RepairIntent

  /** `poll_expiration_job`: how every writer spells the work of one generation. */
  function ExpirationJob(pollId: int, expiresAt: int, kind: IntentKind, runAt: int): JobSpec {
    var suffix := match kind
      case InitialIntent => "initial"
      case RescheduleIntent => "reschedule"
      case RepairIntent => "repair";
    JobSpec(Core, POLL_KIND, CallerArgs(Some(pollId), Some(expiresAt), None, None, map[]),
            Some("poll-expiration:" + Print(pollId) + ":generation:" + Print(expiresAt) + ":" + suffix),
            runAt, DEFAULT_MAX_ATTEMPTS)
  }

  function LegacyRescheduleKey(q: Request): string {
    PollKey(q) + ":reschedule:" + Print(q.expiresAt)
  }

  function RescheduleKey(q: Request): string { GenerationKey(q, "reschedule") }

  function RepairKey(q: Request): string { GenerationKey(q, "repair") }

  function RecoveryKey(q: Request, blocking: int): string {
    RepairKey(q) + ":recovery:" + Print(blocking)
  }

  function BaseKeys(q: Request): seq<string> {
    [RescheduleKey(q), GenerationKey(q, "initial"), RepairKey(q), LegacyRescheduleKey(q),
     PollKey(q) + ":" + Print(q.target), PollKey(q)]
  }

  function Expected(q: Request, key: Option<string>): int {
    if key == Some(RescheduleKey(q)) || key == Some(LegacyRescheduleKey(q))
    then q.expiresAt + RESCHEDULE_DELAY
    else q.target
  }

  // ------------------------------------------------------------- lookups

  predicate Matches(args: CallerArgs, q: Request) {
    args.pollId == Some(q.pollId) && args.generation == Some(q.expiresAt)
  }

  /** A live row that occupies the repair key without being this generation's intent. */
  ghost function MalformedRepair(jobs: map<int, Job>, q: Request): (r: Option<int>)
  {
    var holder := LiveHolder(jobs, POLL_KIND, Some(RepairKey(q)));
    if holder.Some? && !Matches(jobs[holder.value].args.own, q) then holder else None
  }

  ghost function Keys(jobs: map<int, Job>, q: Request): seq<string> {
    match MalformedRepair(jobs, q)
    case Some(blocking) => [RecoveryKey(q, blocking)] + BaseKeys(q)
    case None => BaseKeys(q)
  }

  ghost predicate LiveIntent(jobs: map<int, Job>, q: Request, key: string, id: int) {
    HoldsKey(jobs, id, POLL_KIND, key) && Matches(jobs[id].args.own, q)
  }

  ghost predicate PendingIntent(outbox: map<int, OutboxEvent>, q: Request, key: string, id: int) {
    && HasEventKey(outbox, id, POLL_KIND, key)
    && outbox[id].Pending()
    && outbox[id].payload.Payload?
    && Matches(outbox[id].payload.args, q)
  }

  /** The live intent filed under the earliest of the keys. */
  ghost function FirstLive(jobs: map<int, Job>, q: Request, keys: seq<string>): (r: Option<int>)
    ensures r.Some? ==> exists k :: 0 <= k < |keys| && LiveIntent(jobs, q, keys[k], r.value)
    ensures r.None? && LiveKeysUnique(jobs) ==>
              forall k, id :: 0 <= k < |keys| ==> !LiveIntent(jobs, q, keys[k], id)
  {
    if keys == [] then None
    else
      var holder := LiveHolder(jobs, POLL_KIND, Some(keys[0]));
      if holder.Some? && Matches(jobs[holder.value].args.own, q) then
        assert LiveIntent(jobs, q, keys[0], holder.value);
        holder
      else
        assert forall k :: 0 < k < |keys| ==> keys[k] == keys[1..][k - 1];
        var rest := FirstLive(jobs, q, keys[1..]);
        assert rest.Some? ==> exists k :: 0 <= k < |keys[1..]| && LiveIntent(jobs, q, keys[1..][k], rest.value);
        assert forall k :: 0 <= k < |keys[1..]| ==> keys[1..][k] == keys[k + 1];
        rest
  }

  ghost function FirstPending(outbox: map<int, OutboxEvent>, q: Request, keys: seq<string>): (r: Option<int>)
    ensures r.Some? ==> exists k :: 0 <= k < |keys| && PendingIntent(outbox, q, keys[k], r.value)
    ensures r.None? && EventKeysUnique(outbox) ==>
              forall k, id :: 0 <= k < |keys| ==> !PendingIntent(outbox, q, keys[k], id)
  {
    if keys == [] then None
    else
      var holder := EventHolder(outbox, POLL_KIND, Some(keys[0]));
      if holder.Some? && PendingIntent(outbox, q, keys[0], holder.value) then holder
      else
        assert forall k :: 0 < k < |keys| ==> keys[k] == keys[1..][k - 1];
        var rest := FirstPending(outbox, q, keys[1..]);
        assert rest.Some? ==> exists k :: 0 <= k < |keys[1..]| && PendingIntent(outbox, q, keys[1..][k], rest.value);
        assert forall k :: 0 <= k < |keys[1..]| ==> keys[1..][k] == keys[k + 1];
        rest
  }

  // -------------------------------------------------------------- effects

  /** `record_poll_expiration_effect_in`: first writer wins, and a different outcome is refused. */
  function RecordEffect(db: Db, pollId: int, generation: int, outcome: Outcome): (Db, Result<(), QueueError>) {
    var at := (pollId, generation);
    if at !in db.effects then (db.(effects := db.effects[at := Recorded(outcome)]), Ok(()))
    else if db.effects[at] == Recorded(outcome) then (db, Ok(()))
    else (db, Err(InvalidData))
  }

  // ------------------------------------------------------------ reconcile

  ghost function StateOf(db: Db, q: Request): (state: RepairState)
  {
    var live := FirstLive(db.jobs, q, Keys(db.jobs, q));
    var pending := FirstPending(db.outbox, q, Keys(db.jobs, q));
    RepairState(
      (q.pollId, q.expiresAt) in db.effects,
      if live.Some? then Some(db.jobs[live.value].runAt) else None,
      if live.Some? then Expected(q, db.jobs[live.value].logicalKey) else q.target,
      live.Some? && db.jobs[live.value].Leased(db.clock),
      live.Some? && db.jobs[live.value].attempts > 0,
      if pending.Some? then Some(db.outbox[pending.value].payload.runAt) else None,
      if pending.Some? then Expected(q, db.outbox[pending.value].logicalKey) else q.target)
  }

  ghost function RepairSpec(jobs: map<int, Job>, q: Request): JobSpec {
    var repair := ExpirationJob(q.pollId, q.expiresAt, RepairIntent, q.target);
    if MalformedRepair(jobs, q).Some? then repair.(logicalKey := Some(Keys(jobs, q)[0])) else repair
  }

  function MoveJob(db: Db, id: int, runAt: int): Db
    requires id in db.jobs
  {
    UpdateJob(db, id, db.jobs[id].(runAt := runAt))
  }

  function MoveEvent(db: Db, id: int, runAt: int): Db
    requires id in db.outbox && db.outbox[id].payload.Payload?
  {
    db.(outbox := db.outbox[id := db.outbox[id].(payload := db.outbox[id].payload.(runAt := runAt))])
  }

  ghost function Act(db: Db, q: Request, action: RepairAction): Db
    requires action == Decide(StateOf(db, q))
  {
    match action
    case Healthy => db
    case Completed => db
    case MoveEarlier => MoveJob(db, FirstLive(db.jobs, q, Keys(db.jobs, q)).value, StateOf(db, q).liveExpected)
    case MovePendingEarlier =>
      MoveEvent(db, FirstPending(db.outbox, q, Keys(db.jobs, q)).value, StateOf(db, q).pendingExpected)
    case Create => EnqueueRow(db, RepairSpec(db.jobs, q), None, q.target).0
  }

  ghost function Reconcile(db: Db, q: Request, activation: int): (Db, Result<RepairAction, QueueError>) {
    if q.pollId <= 0 then (db, Err(InvalidInput))
    else if (q.pollId, q.expiresAt) in db.effects && db.effects[(q.pollId, q.expiresAt)] == Corrupt then
      (db, Err(InvalidData))
    else if q.expiresAt <= activation then
      (if (q.pollId, q.expiresAt) in db.effects then db
       else RecordEffect(db, q.pollId, q.expiresAt, HistoricalBaseline).0,
       Ok(Completed))
    else
      var action := Decide(StateOf(db, q));
      (Act(db, q, action), Ok(action))
  }
}
