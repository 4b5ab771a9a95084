/**
 The PostgreSQL tables behind the durable work queue, as one immutable value, and what each
 statement of src/jobs.rs does to them. Times are microseconds; ids come from identity columns,
 which advance even when an insert meets a conflict.
 */
module QueueModel {
  import opened Wrappers

  const RECONCILE_KIND := "rustodon.mastodon.reconcile_poll_expirations"
  const POLL_KIND := "rustodon.mastodon.expire_poll"
  const DELIVERY_KIND := "rustodon.activitypub.deliver"
  const STREAM_KIND := "rustodon.mastodon.stream_event"
  const DELIVERY_DOMAIN := "rustodon.activitypub.delivery"
  const INBOX_DOMAIN := "rustodon.activitypub.inbox"

  type I32 = x: int | -0x8000_0000 <= x <= 0x7fff_ffff

  datatype Lane = Ingress | Core | Push | Pull | Mail | Maintenance

  /** A 32-byte digest: either handed in by the caller or derived from a delivery target. */
  datatype OrderingKey = Given(digest: int) | Delivery(source: int, inbox: string)

  /** The JSON fields a caller may set; the reserved ordering fields are kept apart. */
  datatype CallerArgs = CallerArgs(
    pollId: Option<int>,
    generation: Option<int>,
    source: Option<int>,
    inbox: Option<string>,
    body: map<string, string>)

  datatype Ordering = Ordering(key: OrderingKey, predecessor: Option<int>)

  datatype Args = Args(own: CallerArgs, ordering: Option<Ordering>)
  {
    function Key(): Option<OrderingKey> {
      if ordering.Some? then Some(ordering.value.key) else None
    }

    function Predecessor(): Option<int> {
      if ordering.Some? then ordering.value.predecessor else None
    }
  }

  datatype Lease = Lease(owner: string, expiresAt: int)

  datatype Job = Job(
    lane: Lane,
    kind: string,
    args: Args,
    logicalKey: Option<string>,
    runAt: int,
    attempts: int,
    maxAttempts: int,
    generation: int,
    lease: Option<Lease>,
    deadAt: Option<int>)
  {
    predicate Live() { deadAt.None? }

    predicate Leased(now: int) { lease.Some? && lease.value.expiresAt > now }
  }

  datatype JobSpec = JobSpec(
    lane: Lane,
    kind: string,
    args: CallerArgs,
    logicalKey: Option<string>,
    runAt: int,
    maxAttempts: I32)
  {
    predicate Valid() { maxAttempts > 0 }
  }

  /** The job-shaped outbox payload as stored: the lane is a name, the attempts any JSON integer. */
  datatype Payload =
    | Payload(lane: string, args: CallerArgs, runAt: int, maxAttempts: int)
    | Malformed

  datatype OutboxEvent = OutboxEvent(
    kind: string,
    logicalKey: Option<string>,
    payload: Payload,
    dispatchedAt: Option<int>)
  {
    predicate Pending() { dispatchedAt.None? }
  }

  /** An uncommitted version of an outbox row, and the transaction that wrote it. */
  datatype Draft = Draft(tx: int, event: OutboxEvent)

  datatype Marker = Marker(orderingAt: int, jobId: Option<int>)

  datatype Outcome = HistoricalBaseline | EffectsEnqueued | RemotePastExpirySuppressed

  /** A poll-expiration effect row; every shape the validator rejects is `Corrupt`. */
  datatype Effect = Recorded(outcome: Outcome) | Corrupt

  datatype Db = Db(
    jobs: map<int, Job>,
    nextJobId: int,
    outbox: map<int, OutboxEvent>,
    nextEventId: int,
    open: map<int, Draft>,
    markers: map<(string, OrderingKey), Marker>,
    effects: map<(int, int), Effect>,
    clock: int)

  /** The partial unique index on live (kind, logical_key). */
  ghost predicate LiveKeysUnique(jobs: map<int, Job>) {
    forall a, b | a in jobs && b in jobs && a != b ::
      jobs[a].Live() && jobs[b].Live() && jobs[a].kind == jobs[b].kind ==>
        jobs[a].logicalKey.None? || jobs[a].logicalKey != jobs[b].logicalKey
  }

  /** The partial unique index on outbox (kind, logical_key). */
  ghost predicate EventKeysUnique(outbox: map<int, OutboxEvent>) {
    forall a, b | a in outbox && b in outbox && a != b ::
      outbox[a].kind == outbox[b].kind ==>
        outbox[a].logicalKey.None? || outbox[a].logicalKey != outbox[b].logicalKey
  }

  datatype QueueError = InvalidInput | InvalidData

  /** What a successful claim hands to the worker: a snapshot of the leased row. */
  datatype ClaimedJob = ClaimedJob(
    id: int,
    job: Job,
    attempt: int,
    maxAttempts: int,
    generation: int,
    owner: string)

  datatype RetryResult = Scheduled | Dead | Lost

  // ---------------------------------------------------------------- enqueue

  function NewJob(spec: JobSpec, ordering: Option<Ordering>, runAt: int): Job {
    Job(spec.lane, spec.kind, Args(spec.args, ordering), spec.logicalKey, runAt,
        0, spec.maxAttempts, 0, None, None)
  }

  predicate HoldsKey(jobs: map<int, Job>, id: int, kind: string, key: string) {
    && id in jobs
    && jobs[id].Live()
    && jobs[id].kind == kind
    && jobs[id].logicalKey == Some(key)
  }

  /** The live row that an insert of this kind and key would conflict with. */
  ghost function LiveHolder(jobs: map<int, Job>, kind: string, key: Option<string>): (r: Option<int>)
    ensures r.Some? ==> key.Some? && HoldsKey(jobs, r.value, kind, key.value)
    ensures r.None? && key.Some? ==> forall id :: !HoldsKey(jobs, id, kind, key.value)
  {
    if key.Some? && exists id :: HoldsKey(jobs, id, kind, key.value) then
      var id :| HoldsKey(jobs, id, kind, key.value);
      Some(id)
    else None
  }

  /** `enqueue_in`: insert, or return the live row that already has the kind and key. */
  ghost function EnqueueRow(db: Db, spec: JobSpec, ordering: Option<Ordering>, runAt: int): (Db, int) {
    match LiveHolder(db.jobs, spec.kind, spec.logicalKey)
    case Some(id) => (db.(nextJobId := db.nextJobId + 1), id)
    case None =>
      (db.(jobs := db.jobs[db.nextJobId := NewJob(spec, ordering, runAt)],
           nextJobId := db.nextJobId + 1),
       db.nextJobId)
  }

  /** Every insert goes through the conflict check, so live keys stay unique. */
  lemma EnqueueKeepsUnique(db: Db, spec: JobSpec, ordering: Option<Ordering>, runAt: int)
    requires LiveKeysUnique(db.jobs) && db.nextJobId !in db.jobs
    ensures LiveKeysUnique(EnqueueRow(db, spec, ordering, runAt).0.jobs)
  {
    var db' := EnqueueRow(db, spec, ordering, runAt).0;
    if LiveHolder(db.jobs, spec.kind, spec.logicalKey).None? && spec.logicalKey.Some? {
      forall id | id in db.jobs
        ensures db.jobs[id].Live() && db.jobs[id].kind == spec.kind ==> db.jobs[id].logicalKey != spec.logicalKey
      {
        assert !HoldsKey(db.jobs, id, spec.kind, spec.logicalKey.value);
      }
    }
  }

  function Max(a: int, b: int): int { if a >= b then a else b }

  function MarkerOf(db: Db, domain: string, key: OrderingKey, runAt: int): Marker {
    if (domain, key) in db.markers then db.markers[(domain, key)] else Marker(runAt, None)
  }

  function OrderedRunAt(marker: Marker, runAt: int): int {
    if marker.jobId.Some? then Max(runAt, marker.orderingAt + 1) else runAt
  }

  /** `enqueue_ordered_kind_in`: link to the marker's job, enqueue, and advance the marker. */
  ghost function EnqueueOrderedRow(db: Db, spec: JobSpec, key: OrderingKey, domain: string): (Db, int) {
    var marker := MarkerOf(db, domain, key, spec.runAt);
    var runAt := OrderedRunAt(marker, spec.runAt);
    var (db', id) := EnqueueRow(db, spec, Some(Ordering(key, marker.jobId)), runAt);
    (db'.(markers := db'.markers[(domain, key) := Marker(runAt, Some(id))]), id)
  }

  // ------------------------------------------------------------------ claim

  /** The immediate predecessor link still points at a live row of the stream (or an unkeyed row). */
  predicate PredecessorBlocks(jobs: map<int, Job>, id: int, blocker: int)
    requires id in jobs
  {
    && jobs[id].args.Predecessor() == Some(blocker)
    && blocker in jobs
    && jobs[blocker].Live()
    && (jobs[blocker].args.Key().None? || jobs[blocker].args.Key() == jobs[id].args.Key())
  }

  /** An earlier live row of the same kind and ordering key. */
  predicate EarlierBlocks(jobs: map<int, Job>, id: int, blocker: int)
    requires id in jobs
  {
    && blocker in jobs
    && blocker < id
    && jobs[blocker].Live()
    && jobs[blocker].kind == jobs[id].kind
    && jobs[id].args.Key().Some?
    && jobs[blocker].args.Key() == jobs[id].args.Key()
  }

  ghost predicate PassesFences(jobs: map<int, Job>, id: int)
    requires id in jobs
  {
    && (forall p :: !PredecessorBlocks(jobs, id, p))
    && (forall e :: !EarlierBlocks(jobs, id, e))
  }

  predicate Due(db: Db, id: int, lanes: set<Lane>)
    requires id in db.jobs
  {
    var job := db.jobs[id];
    job.Live() && job.runAt <= db.clock && !job.Leased(db.clock) && job.lane in lanes
  }

  ghost predicate Candidate(db: Db, id: int, lanes: set<Lane>) {
    id in db.jobs && Due(db, id, lanes) && PassesFences(db.jobs, id)
  }

  /** The candidate the query returns when no row is locked by another transaction. */
  ghost predicate BestCandidate(db: Db, id: int, lanes: set<Lane>) {
    && Candidate(db, id, lanes)
    && forall other :: Candidate(db, other, lanes) ==>
         || db.jobs[id].runAt < db.jobs[other].runAt
         || (db.jobs[id].runAt == db.jobs[other].runAt && id <= other)
  }

  predicate ValidLease(owner: string, milliseconds: int) {
    1 <= |owner| <= 255 && milliseconds > 0
  }

  function Leasing(job: Job, owner: string, expiresAt: int): Job {
    job.(attempts := if job.attempts < job.maxAttempts then job.attempts + 1 else job.attempts,
         generation := job.generation + 1,
         lease := Some(Lease(owner, expiresAt)))
  }

  function ClaimRow(db: Db, id: int, owner: string, milliseconds: int): (Db, ClaimedJob)
    requires id in db.jobs
  {
    var job := Leasing(db.jobs[id], owner, db.clock + 1000 * milliseconds);
    (UpdateJob(db, id, job),
     ClaimedJob(id, job, job.attempts, job.maxAttempts, job.generation, owner))
  }

  /** The startup claim of one exact reconciliation: it ignores the due time and both fences. */
  predicate StartupClaimable(db: Db, id: int, key: string, args: CallerArgs) {
    && id in db.jobs
    && var job := db.jobs[id];
       && job.Live()
       && job.kind == RECONCILE_KIND
       && job.lane == Maintenance
       && job.logicalKey == Some(key)
       && job.args == Args(args, None)
       && !job.Leased(db.clock)
  }

  // ------------------------------------------------- fenced acknowledgements

  /** The caller still owns the lease it was given: the condition of every fenced statement. */
  predicate Holds(db: Db, id: int, owner: string, generation: int) {
    && id in db.jobs
    && var job := db.jobs[id];
       && job.Live()
       && job.generation == generation
       && job.lease.Some?
       && job.lease.value.owner == owner
       && job.lease.value.expiresAt > db.clock
  }

  function UpdateJob(db: Db, id: int, job: Job): Db {
    db.(jobs := db.jobs[id := job])
  }

  function RenewRow(db: Db, id: int, owner: string, generation: int, milliseconds: int): (Db, bool) {
    if Holds(db, id, owner, generation) then
      (UpdateJob(db, id, db.jobs[id].(lease := Some(Lease(owner, db.clock + 1000 * milliseconds)))), true)
    else (db, false)
  }

  /** A JSON object laid over the arguments; a field it does not name is left as it is. */
  datatype Patch = Patch(
    pollId: Option<Option<int>>,
    generation: Option<Option<int>>,
    source: Option<Option<int>>,
    inbox: Option<Option<string>>,
    body: map<string, string>)
  {
    function Over(own: CallerArgs): CallerArgs {
      CallerArgs(
        if pollId.Some? then pollId.value else own.pollId,
        if generation.Some? then generation.value else own.generation,
        if source.Some? then source.value else own.source,
        if inbox.Some? then inbox.value else own.inbox,
        own.body + body)
    }
  }

  function MergeRow(db: Db, id: int, owner: string, generation: int, patch: Patch): (Db, bool) {
    if Holds(db, id, owner, generation) then
      var args := db.jobs[id].args;
      (UpdateJob(db, id, db.jobs[id].(args := args.(own := patch.Over(args.own)))), true)
    else (db, false)
  }

  function CompleteRow(db: Db, id: int, owner: string, generation: int): (Db, bool) {
    if Holds(db, id, owner, generation) then (db.(jobs := db.jobs - {id}), true) else (db, false)
  }

  function Killed(job: Job, now: int): Job {
    job.(lease := None, deadAt := Some(now))
  }

  function DeadLetterRow(db: Db, id: int, owner: string, generation: int): (Db, bool) {
    if Holds(db, id, owner, generation) then (UpdateJob(db, id, Killed(db.jobs[id], db.clock)), true)
    else (db, false)
  }

  function RetryRow(db: Db, claimed: ClaimedJob, runAt: int): (Db, RetryResult) {
    if !Holds(db, claimed.id, claimed.owner, claimed.generation) then (db, Lost)
    else if claimed.attempt >= claimed.maxAttempts then
      (UpdateJob(db, claimed.id, Killed(db.jobs[claimed.id], db.clock)), Dead)
    else
      (UpdateJob(db, claimed.id, db.jobs[claimed.id].(lease := None, runAt := runAt)), Scheduled)
  }

  predicate CancelsJob(db: Db, id: int, kind: string, key: string) {
    HoldsKey(db.jobs, id, kind, key) && !db.jobs[id].Leased(db.clock)
  }

  predicate CancelsEvent(db: Db, id: int, kind: string, key: string) {
    && id in db.outbox
    && db.outbox[id].kind == kind
    && db.outbox[id].logicalKey == Some(key)
    && db.outbox[id].Pending()
  }

  function CancelRows(db: Db, kind: string, key: string): Db {
    db.(jobs := map id | id in db.jobs && !CancelsJob(db, id, kind, key) :: db.jobs[id],
        outbox := map id | id in db.outbox && !CancelsEvent(db, id, kind, key) :: db.outbox[id])
  }

  // ----------------------------------------------------------------- outbox

  function LaneName(lane: Lane): string {
    match lane
    case Ingress => "ingress"
    case Core => "core"
    case Push => "push"
    case Pull => "pull"
    case Mail => "mail"
    case Maintenance => "maintenance"
  }

  function ParseLane(name: string): Option<Lane> {
    match name
    case "ingress" => Some(Ingress)
    case "core" => Some(Core)
    case "push" => Some(Push)
    case "pull" => Some(Pull)
    case "mail" => Some(Mail)
    case "maintenance" => Some(Maintenance)
    case _ => None
  }

  function PayloadOf(spec: JobSpec): Payload {
    Payload(LaneName(spec.lane), spec.args, spec.runAt, spec.maxAttempts)
  }

  function EventOf(spec: JobSpec): OutboxEvent {
    OutboxEvent(spec.kind, spec.logicalKey, PayloadOf(spec), None)
  }

  /** `outbox_spec`: rebuild the job specification from a stored event. */
  function OutboxSpec(event: OutboxEvent): Result<JobSpec, QueueError> {
    match event.payload
    case Malformed => Err(InvalidData)
    case Payload(lane, args, runAt, maxAttempts) =>
      if ParseLane(lane).None? || !(-0x8000_0000 <= maxAttempts <= 0x7fff_ffff) then Err(InvalidData)
      else if maxAttempts <= 0 then Err(InvalidInput)
      else Ok(JobSpec(ParseLane(lane).value, event.kind, args, event.logicalKey, runAt, maxAttempts))
  }

  predicate HasEventKey(outbox: map<int, OutboxEvent>, id: int, kind: string, key: string) {
    id in outbox && outbox[id].kind == kind && outbox[id].logicalKey == Some(key)
  }

  ghost function EventHolder(outbox: map<int, OutboxEvent>, kind: string, key: Option<string>): (r: Option<int>)
    ensures r.Some? ==> key.Some? && HasEventKey(outbox, r.value, kind, key.value)
    ensures r.None? && key.Some? ==> forall id :: !HasEventKey(outbox, id, kind, key.value)
  {
    if key.Some? && exists id :: HasEventKey(outbox, id, kind, key.value) then
      var id :| HasEventKey(outbox, id, kind, key.value);
      Some(id)
    else None
  }

  predicate DraftsKey(open: map<int, Draft>, id: int, kind: string, key: string) {
    id in open && open[id].event.kind == kind && open[id].event.logicalKey == Some(key)
  }

  ghost function DraftHolder(open: map<int, Draft>, kind: string, key: Option<string>): (r: Option<int>)
    ensures r.Some? ==> key.Some? && DraftsKey(open, r.value, kind, key.value)
    ensures r.None? && key.Some? ==> forall id :: !DraftsKey(open, id, kind, key.value)
  {
    if key.Some? && exists id :: DraftsKey(open, id, kind, key.value) then
      var id :| DraftsKey(open, id, kind, key.value);
      Some(id)
    else None
  }

  /** The row an insert conflicts with; an uncommitted version stands for the row it replaces. */
  ghost function RecordHolder(db: Db, kind: string, key: Option<string>): Option<int> {
    var draft := DraftHolder(db.open, kind, key);
    if draft.Some? then draft else EventHolder(db.outbox, kind, key)
  }

  /** No other transaction has an uncommitted row with the key; otherwise an insert waits for it. */
  ghost predicate KeyFree(open: map<int, Draft>, t: int, kind: string, key: Option<string>) {
    key.Some? ==> forall id :: DraftsKey(open, id, kind, key.value) ==> open[id].tx == t
  }

  function WriteDraft(db: Db, t: int, id: int, event: OutboxEvent): Db {
    db.(open := db.open[id := Draft(t, event)], nextEventId := db.nextEventId + 1)
  }

  /** `record_outbox_in` inside transaction `t`: a conflicting row keeps its id but will become
      pending with the new payload. */
  ghost function RecordRow(db: Db, t: int, spec: JobSpec): (Db, int) {
    match RecordHolder(db, spec.kind, spec.logicalKey)
    case Some(id) => (WriteDraft(db, t, id, EventOf(spec)), id)
    case None => (WriteDraft(db, t, db.nextEventId, EventOf(spec)), db.nextEventId)
  }

  /** `record_outbox_once_in` inside transaction `t`: a conflicting row is left alone. */
  ghost function RecordOnceRow(db: Db, t: int, spec: JobSpec): (Db, bool) {
    match RecordHolder(db, spec.kind, spec.logicalKey)
    case Some(id) => (db.(nextEventId := db.nextEventId + 1), false)
    case None => (WriteDraft(db, t, db.nextEventId, EventOf(spec)), true)
  }

  /** What a transaction recorded becomes visible all at once. */
  function CommitRows(db: Db, t: int): Db {
    db.(outbox := db.outbox + (map id | id in db.open && db.open[id].tx == t :: db.open[id].event),
        open := map id | id in db.open && db.open[id].tx != t :: db.open[id])
  }

  function AbortRows(db: Db, t: int): Db {
    db.(open := map id | id in db.open && db.open[id].tx != t :: db.open[id])
  }

  /** The Unicode White_Space code points that `str::trim` removes. */
  predicate IsWhitespace(c: char) {
    || '\t' <= c <= '\r'
    || c == ' '
    || c == '\U{85}'
    || c == '\U{A0}'
    || c == '\U{1680}'
    || '\U{2000}' <= c <= '\U{200A}'
    || c in "\U{2028}\U{2029}\U{202F}\U{205F}\U{3000}"
  }

  function Trim(text: string): string {
    if text == [] then []
    else if IsWhitespace(text[0]) then Trim(text[1..])
    else if IsWhitespace(text[|text| - 1]) then Trim(text[..|text| - 1])
    else text
  }

  /** `activitypub_delivery_ordering_key`: deliveries are ordered per source account and inbox. */
  function DeliveryKeyOf(spec: JobSpec): Option<OrderingKey> {
    if spec.kind != DELIVERY_KIND || spec.args.source.None? || spec.args.inbox.None? then None
    else if Trim(spec.args.inbox.value) == "" then None
    else Some(Delivery(spec.args.source.value, Trim(spec.args.inbox.value)))
  }

  /** The source account and inbox of a delivery, compared verbatim as the dispatch query does. */
  function PairOf(event: OutboxEvent): Option<(int, string)> {
    if && event.kind == DELIVERY_KIND
       && event.payload.Payload?
       && event.payload.args.source.Some?
       && event.payload.args.inbox.Some?
    then Some((event.payload.args.source.value, event.payload.args.inbox.value))
    else None
  }

  predicate EarlierPending(db: Db, id: int, previous: int)
    requires id in db.outbox
  {
    && previous in db.outbox
    && previous < id
    && db.outbox[previous].Pending()
    && PairOf(db.outbox[id]).Some?
    && PairOf(db.outbox[previous]) == PairOf(db.outbox[id])
  }

  ghost predicate Selectable(db: Db, id: int) {
    && id in db.outbox
    && id !in db.open
    && db.outbox[id].Pending()
    && db.outbox[id].kind != STREAM_KIND
    && (forall previous :: !EarlierPending(db, id, previous))
    && LiveHolder(db.jobs, db.outbox[id].kind, db.outbox[id].logicalKey).None?
  }

  ghost predicate Distinct(rows: seq<int>) {
    forall i, j :: 0 <= i < j < |rows| ==> rows[i] != rows[j]
  }

  /** Rows a dispatch may hold; rows locked by another dispatcher may be missing. */
  ghost predicate Dispatchable(db: Db, rows: seq<int>) {
    Distinct(rows) && forall i :: 0 <= i < |rows| ==> Selectable(db, rows[i])
  }

  /** The rows the query returns when nothing is locked: the `limit` smallest selectable ids. */
  ghost predicate IsSelection(db: Db, rows: seq<int>, limit: int) {
    && |rows| <= limit
    && (forall i :: 0 <= i < |rows| ==> Selectable(db, rows[i]))
    && (forall i, j :: 0 <= i < j < |rows| ==> rows[i] < rows[j])
    && (forall id :: Selectable(db, id) && id !in rows ==>
          |rows| == limit && forall i :: 0 <= i < |rows| ==> rows[i] < id)
  }

  ghost function EnqueueFromOutbox(db: Db, spec: JobSpec): (Db, bool) {
    match DeliveryKeyOf(spec)
    case Some(key) => (EnqueueOrderedRow(db, spec, key, DELIVERY_DOMAIN).0, true)
    case None =>
      (EnqueueRow(db, spec, None, spec.runAt).0, LiveHolder(db.jobs, spec.kind, spec.logicalKey).None?)
  }

  function MarkDispatched(db: Db, id: int): Db
    requires id in db.outbox
  {
    db.(outbox := db.outbox[id := db.outbox[id].(dispatchedAt := Some(db.clock))])
  }

  /** One turn of the dispatch loop. */
  ghost function DispatchRow(db: Db, id: int, spec: JobSpec): (Db, int)
    requires id in db.outbox
  {
    var (db', inserted) := EnqueueFromOutbox(db, spec);
    if inserted then (MarkDispatched(db', id), 1) else (db', 0)
  }

  /** The whole loop; the first malformed row aborts the transaction. */
  ghost function DispatchRows(db: Db, rows: seq<int>): (r: Result<(Db, int), QueueError>)
    requires forall i :: 0 <= i < |rows| ==> rows[i] in db.outbox
    decreases rows
  {
    if rows == [] then Ok((db, 0))
    else match OutboxSpec(db.outbox[rows[0]])
      case Err(e) => Err(e)
      case Ok(spec) =>
        var (db', n) := DispatchRow(db, rows[0], spec);
        match DispatchRows(db', rows[1..])
        case Err(e) => Err(e)
        case Ok((last, m)) => Ok((last, n + m))
  }
}
