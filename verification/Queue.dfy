/** The queue as the workers see it: one object whose methods are the committed statements. */
module QueueService {
  import opened Wrappers
  import opened QueueModel
  import opened PollRepair
  import opened PollRepairProofs
  import opened QueueInvariants
  import opened QueueRuns
  import opened OrderedEnqueue
  import H = RowHistory
  import O = OutboxHistory

  class Queue {
    var jobs: map<int, Job>
    var nextJobId: int
    var outbox: map<int, OutboxEvent>
    var nextEventId: int
    var open: map<int, Draft>
    var markers: map<(string, OrderingKey), Marker>
    var effects: map<(int, int), Effect>
    var clock: int

    ghost function State(): Db
      reads this
    {
      Db(jobs, nextJobId, outbox, nextEventId, open, markers, effects, clock)
    }

    ghost predicate Valid()
      reads this
    {
      WellFormed(State())
    }

    constructor (now: int)
      ensures Valid()
      ensures State() == Db(map[], 1, map[], 1, map[], map[], map[], now)
    {
      jobs, nextJobId, outbox, nextEventId, open := map[], 1, map[], 1, map[];
      markers, effects, clock := map[], map[], now;
    }

    // ------------------------------------------------------------- lookups

    method FindHolder(kind: string, key: Option<string>) returns (holder: Option<int>)
      requires Valid()
      ensures holder == LiveHolder(jobs, kind, key)
    {
      holder := None;
      if key.Some? {
        for id := 1 to nextJobId
          invariant forall other :: 1 <= other < id ==> !HoldsKey(jobs, other, kind, key.value)
        {
          if HoldsKey(jobs, id, kind, key.value) {
            LiveHolderIs(jobs, kind, key.value, id);
            return Some(id);
          }
        }
        assert forall id :: !HoldsKey(jobs, id, kind, key.value);
      }
    }

    method FindEvent(kind: string, key: Option<string>) returns (holder: Option<int>)
      requires Valid()
      ensures holder == EventHolder(outbox, kind, key)
    {
      holder := None;
      if key.Some? {
        for id := 1 to nextEventId
          invariant forall other :: 1 <= other < id ==> !HasEventKey(outbox, other, kind, key.value)
        {
          if HasEventKey(outbox, id, kind, key.value) {
            EventHolderIs(outbox, kind, key.value, id);
            return Some(id);
          }
        }
        assert forall id :: !HasEventKey(outbox, id, kind, key.value);
      }
    }

    method FindDraft(kind: string, key: Option<string>) returns (holder: Option<int>)
      requires Valid()
      ensures holder == DraftHolder(open, kind, key)
    {
      holder := None;
      if key.Some? {
        for id := 1 to nextEventId
          invariant forall other :: 1 <= other < id ==> !DraftsKey(open, other, kind, key.value)
        {
          if DraftsKey(open, id, kind, key.value) {
            DraftHolderIs(State(), kind, key.value, id);
            return Some(id);
          }
        }
        assert forall id :: !DraftsKey(open, id, kind, key.value);
      }
    }

    method FindRecorded(kind: string, key: Option<string>) returns (holder: Option<int>)
      requires Valid()
      ensures holder == RecordHolder(State(), kind, key)
    {
      holder := FindDraft(kind, key);
      if holder.None? { holder := FindEvent(kind, key); }
    }

    method CheckFences(id: int) returns (passes: bool)
      requires Valid() && id in jobs
      ensures passes == PassesFences(jobs, id)
    {
      var predecessor := jobs[id].args.Predecessor();
      if predecessor.Some? && PredecessorBlocks(jobs, id, predecessor.value) { return false; }
      for other := 1 to nextJobId
        invariant forall e :: 1 <= e < other ==> !EarlierBlocks(jobs, id, e)
      {
        if EarlierBlocks(jobs, id, other) { return false; }
      }
      return true;
    }

    // ------------------------------------------------------------- enqueue

    method Insert(spec: JobSpec, ordering: Option<Ordering>, runAt: int) returns (id: int)
      requires Valid() && spec.Valid()
      requires ordering.Some? && ordering.value.predecessor.Some? ==> ordering.value.predecessor.value < nextJobId
      modifies this`jobs, this`nextJobId
      ensures Valid()
      ensures (State(), id) == EnqueueRow(old(State()), spec, ordering, runAt)
    {
      EnqueueEvolves(State(), spec, ordering, runAt);
      var holder := FindHolder(spec.kind, spec.logicalKey);
      if holder.Some? {
        id := holder.value;
      } else {
        id := nextJobId;
        jobs := jobs[id := NewJob(spec, ordering, runAt)];
      }
      nextJobId := nextJobId + 1;
      assert State() == EnqueueRow(old(State()), spec, ordering, runAt).0;
    }

    method Enqueue(spec: JobSpec) returns (r: Result<int, QueueError>)
      requires Valid()
      modifies this
      ensures Valid()
      ensures !spec.Valid() ==> r == Err(InvalidInput) && State() == old(State())
      ensures spec.Valid() ==>
                r.Ok? && (State(), r.value) == EnqueueRow(old(State()), spec, None, spec.runAt)
      ensures r.Ok? ==> r.value in jobs && jobs[r.value].kind == spec.kind && jobs[r.value].logicalKey == spec.logicalKey
      ensures r.Ok? ==> if KeyTaken(old(jobs), spec.kind, spec.logicalKey) then jobs == old(jobs)
                        else r.value == old(nextJobId) && IsNew(jobs[r.value], spec, None, spec.runAt)
    {
      if !spec.Valid() { return Err(InvalidInput); }
      EnqueueAnswers(State(), spec, None, spec.runAt);
      var id := Insert(spec, None, spec.runAt);
      return Ok(id);
    }

    /** Links the new job to the marker's job and moves the marker on to it. */
    method InsertOrdered(spec: JobSpec, key: OrderingKey, domain: string) returns (id: int)
      requires Valid() && spec.Valid()
      modifies this`jobs, this`nextJobId, this`markers
      ensures Valid()
      ensures (State(), id) == EnqueueOrderedRow(old(State()), spec, key, domain)
    {
      hide StreamOrder, LiveKeysUnique, EventKeysUnique, DraftsOk, Evolves, EnqueueRow;
      EnqueueOrderedEvolves(State(), spec, key, domain);
      var marker := Marker(spec.runAt, None);
      if (domain, key) in markers { marker := markers[(domain, key)]; }
      var runAt := spec.runAt;
      if marker.jobId.Some? && marker.orderingAt + 1 > runAt { runAt := marker.orderingAt + 1; }
      id := Insert(spec, Some(Ordering(key, marker.jobId)), runAt);
      markers := markers[(domain, key) := Marker(runAt, Some(id))];
      assert State() == EnqueueOrderedRow(old(State()), spec, key, domain).0;
    }

    method EnqueueOrdered(spec: JobSpec, key: OrderingKey) returns (r: Result<int, QueueError>)
      requires Valid()
      modifies this
      ensures Valid()
      ensures !spec.Valid() ==> r == Err(InvalidInput) && State() == old(State())
      ensures spec.Valid() ==>
                r.Ok? && (State(), r.value) == EnqueueOrderedRow(old(State()), spec, key, INBOX_DOMAIN)
      ensures r.Ok? ==> r.value in jobs && jobs[r.value].kind == spec.kind && jobs[r.value].logicalKey == spec.logicalKey
      ensures r.Ok? && !KeyTaken(old(jobs), spec.kind, spec.logicalKey) ==>
                && NextInStream(old(State()), INBOX_DOMAIN, key, spec.runAt, jobs[r.value].runAt)
                && jobs[r.value].args.ordering == Some(Ordering(key, Link(old(State()), INBOX_DOMAIN, key)))
    {
      if !spec.Valid() { return Err(InvalidInput); }
      OrderedAnswers(State(), spec, key, INBOX_DOMAIN);
      var id := InsertOrdered(spec, key, INBOX_DOMAIN);
      return Ok(id);
    }

    // --------------------------------------------------------------- claim

    method FindCandidate(lanes: set<Lane>) returns (best: Option<int>)
      requires Valid()
      ensures best.Some? ==> BestCandidate(State(), best.value, lanes)
      ensures best.None? ==> forall id :: !Candidate(State(), id, lanes)
    {
      best := None;
      for id := 1 to nextJobId
        invariant best.None? ==> forall other :: 1 <= other < id ==> !Candidate(State(), other, lanes)
        invariant best.Some? ==> best.value < id && Candidate(State(), best.value, lanes)
        invariant best.Some? ==> forall other :: 1 <= other < id && Candidate(State(), other, lanes) ==>
                    || jobs[best.value].runAt < jobs[other].runAt
                    || (jobs[best.value].runAt == jobs[other].runAt && best.value <= other)
      {
        if id in jobs && jobs[id].Live() && jobs[id].runAt <= clock && !jobs[id].Leased(clock) && jobs[id].lane in lanes {
          var passes := CheckFences(id);
          if passes && (best.None? || jobs[id].runAt < jobs[best.value].runAt) {
            best := Some(id);
          }
        }
      }
    }

    method Take(id: int, owner: string, milliseconds: int) returns (claimed: ClaimedJob)
      requires Valid() && id in jobs && jobs[id].Live() && !jobs[id].Leased(clock) && PassesFences(jobs, id)
      modifies this`jobs
      ensures Valid()
      ensures (State(), claimed) == ClaimRow(old(State()), id, owner, milliseconds)
    {
      ClaimIsLegal(State(), id, owner, clock + 1000 * milliseconds);
      ClaimEvolves(State(), id, owner, milliseconds);
      var job := jobs[id];
      if job.attempts < job.maxAttempts { job := job.(attempts := job.attempts + 1); }
      job := job.(generation := job.generation + 1);
      job := job.(lease := Some(Lease(owner, clock + 1000 * milliseconds)));
      jobs := jobs[id := job];
      claimed := ClaimedJob(id, job, job.attempts, job.maxAttempts, job.generation, owner);
      assert State() == ClaimRow(old(State()), id, owner, milliseconds).0;
    }

    method Claim(owner: string, lanes: set<Lane>, milliseconds: int)
      returns (r: Result<Option<ClaimedJob>, QueueError>)
      requires Valid()
      modifies this
      ensures Valid()
      ensures !ValidLease(owner, milliseconds) || lanes == {} ==> r == Err(InvalidInput) && State() == old(State())
      ensures ValidLease(owner, milliseconds) && lanes != {} ==> r.Ok?
      ensures r.Ok? && r.value.None? ==>
                State() == old(State()) && forall id :: !Candidate(old(State()), id, lanes)
      ensures r.Ok? && r.value.Some? ==>
                && BestCandidate(old(State()), r.value.value.id, lanes)
                && (State(), r.value.value) == ClaimRow(old(State()), r.value.value.id, owner, milliseconds)
      // In the rows' own fields: a claim takes a due row, the first of those that no other row holds
      // back, and leaves a due row only when some older live row of its stream comes first.
      ensures r.Ok? && r.value.Some? ==>
                r.value.value.id in old(jobs) && H.IsDue(old(jobs)[r.value.value.id], clock, lanes)
      ensures r.Ok? && r.value.Some? ==>
                forall id :: id in old(jobs) && H.IsDue(old(jobs)[id], clock, lanes) ==>
                  || (exists b :: b < id && H.HeldBack(old(jobs), id, b))
                  || old(jobs)[r.value.value.id].runAt < old(jobs)[id].runAt
                  || (old(jobs)[r.value.value.id].runAt == old(jobs)[id].runAt && r.value.value.id <= id)
      ensures r.Ok? && r.value.None? ==>
                forall id :: id in old(jobs) && H.IsDue(old(jobs)[id], clock, lanes) ==>
                  exists b :: b < id && H.HeldBack(old(jobs), id, b)
    {
      if !ValidLease(owner, milliseconds) || lanes == {} { return Err(InvalidInput); }
      var best := FindCandidate(lanes);
      forall id | id in jobs && H.IsDue(jobs[id], clock, lanes) && !Candidate(State(), id, lanes)
        ensures exists b :: b < id && H.HeldBack(jobs, id, b)
      {
        H.DueRowsAreHeldBack(State(), id, lanes);
      }
      if best.None? { return Ok(None); }
      var claimed := Take(best.value, owner, milliseconds);
      return Ok(Some(claimed));
    }

    // ------------------------------------------------ fenced acknowledgements

    method Owns(id: int, owner: string, generation: int) returns (owns: bool)
      ensures owns == Holds(State(), id, owner, generation)
    {
      owns := id in jobs && jobs[id].deadAt == None && jobs[id].generation == generation
              && jobs[id].lease.Some? && jobs[id].lease.value.owner == owner
              && jobs[id].lease.value.expiresAt > clock;
    }

    method Renew(id: int, owner: string, generation: int, milliseconds: int) returns (r: Result<bool, QueueError>)
      requires Valid()
      modifies this`jobs
      ensures Valid()
      ensures !ValidLease(owner, milliseconds) ==> r == Err(InvalidInput) && State() == old(State())
      ensures ValidLease(owner, milliseconds) ==>
                r.Ok? && (State(), r.value) == RenewRow(old(State()), id, owner, generation, milliseconds)
      ensures r.Ok? ==> (r.value <==> id in old(jobs) && H.Owned(old(jobs)[id], owner, generation, clock))
      ensures r == Ok(true) ==>
                && id in jobs && jobs == old(jobs)[id := jobs[id]] && jobs[id] == old(jobs)[id].(lease := jobs[id].lease)
                && jobs[id].lease == Some(Lease(owner, clock + 1000 * milliseconds))
    {
      if !ValidLease(owner, milliseconds) { return Err(InvalidInput); }
      RenewEvolves(State(), id, owner, generation, milliseconds);
      var owns := Owns(id, owner, generation);
      if owns {
        jobs := jobs[id := jobs[id].(lease := Some(Lease(owner, clock + 1000 * milliseconds)))];
      }
      assert State() == RenewRow(old(State()), id, owner, generation, milliseconds).0;
      return Ok(owns);
    }

    /** A patch that is no JSON object is refused before anything is looked at. */
    method MergeArguments(id: int, owner: string, generation: int, patch: Option<Patch>)
      returns (r: Result<bool, QueueError>)
      requires Valid()
      modifies this`jobs
      ensures Valid()
      ensures patch.None? ==> r == Err(InvalidInput) && State() == old(State())
      ensures patch.Some? ==>
                r.Ok? && (State(), r.value) == MergeRow(old(State()), id, owner, generation, patch.value)
      ensures r.Ok? ==> (r.value <==> id in old(jobs) && H.Owned(old(jobs)[id], owner, generation, clock))
      ensures r == Ok(true) ==> id in jobs && H.Patched(old(jobs)[id].args, patch.value, jobs[id].args)
    {
      if patch.None? { return Err(InvalidInput); }
      MergeEvolves(State(), id, owner, generation, patch.value);
      var merged := Owns(id, owner, generation);
      if merged {
        var args := jobs[id].args;
        jobs := jobs[id := jobs[id].(args := args.(own := patch.value.Over(args.own)))];
      }
      assert State() == MergeRow(old(State()), id, owner, generation, patch.value).0;
      return Ok(merged);
    }

    method Complete(id: int, owner: string, generation: int) returns (done: bool)
      requires Valid()
      modifies this`jobs
      ensures Valid()
      ensures (State(), done) == CompleteRow(old(State()), id, owner, generation)
      ensures done <==> id in old(jobs) && H.Owned(old(jobs)[id], owner, generation, clock)
      ensures jobs == if done then old(jobs) - {id} else old(jobs)
    {
      CompleteEvolves(State(), id, owner, generation);
      done := Owns(id, owner, generation);
      if done { jobs := jobs - {id}; }
      assert State() == CompleteRow(old(State()), id, owner, generation).0;
    }

    method Retry(claimed: ClaimedJob, runAt: int) returns (result: RetryResult)
      requires Valid()
      modifies this`jobs
      ensures Valid()
      ensures (State(), result) == RetryRow(old(State()), claimed, runAt)
      ensures result != Lost <==>
                claimed.id in old(jobs) && H.Owned(old(jobs)[claimed.id], claimed.owner, claimed.generation, clock)
      ensures result == Dead <==> result != Lost && claimed.attempt >= claimed.maxAttempts
    {
      RetryEvolves(State(), claimed, runAt);
      var owns := Owns(claimed.id, claimed.owner, claimed.generation);
      if !owns {
        result := Lost;
      } else if claimed.attempt >= claimed.maxAttempts {
        jobs := jobs[claimed.id := jobs[claimed.id].(lease := None, deadAt := Some(clock))];
        result := Dead;
      } else {
        jobs := jobs[claimed.id := jobs[claimed.id].(lease := None, runAt := runAt)];
        result := Scheduled;
      }
      assert State() == RetryRow(old(State()), claimed, runAt).0;
    }

    method DeadLetter(id: int, owner: string, generation: int) returns (buried: bool)
      requires Valid()
      modifies this`jobs
      ensures Valid()
      ensures (State(), buried) == DeadLetterRow(old(State()), id, owner, generation)
      ensures buried <==> id in old(jobs) && H.Owned(old(jobs)[id], owner, generation, clock)
      ensures buried ==> jobs == old(jobs)[id := old(jobs)[id].(lease := None, deadAt := Some(clock))]
    {
      DeadLetterEvolves(State(), id, owner, generation);
      buried := Owns(id, owner, generation);
      if buried {
        jobs := jobs[id := jobs[id].(lease := None, deadAt := Some(clock))];
      }
      assert State() == DeadLetterRow(old(State()), id, owner, generation).0;
    }

    method DeleteJobs(kind: string, key: string) returns (deleted: nat)
      requires Valid()
      modifies this`jobs
      ensures jobs == CancelRows(old(State()), kind, key).jobs
      ensures deleted == |old(jobs)| - |jobs|
    {
      var gone: set<int> := {};
      for id := 1 to nextJobId
        invariant forall i :: i in gone <==> 1 <= i < id && CancelsJob(State(), i, kind, key)
      {
        if HoldsKey(jobs, id, kind, key) && !jobs[id].Leased(clock) { gone := gone + {id}; }
      }
      deleted := |gone|;
      assert gone <= jobs.Keys by { assert forall i :: i in gone ==> i in jobs; }
      RemovalCount(jobs, gone);
      jobs := jobs - gone;
    }

    method DeleteEvents(kind: string, key: string) returns (deleted: nat)
      requires TablesOk(State())
      modifies this`outbox
      ensures outbox == CancelRows(old(State()), kind, key).outbox
      ensures deleted == |old(outbox)| - |outbox|
    {
      var gone: set<int> := {};
      for id := 1 to nextEventId
        invariant forall i :: i in gone <==> 1 <= i < id && CancelsEvent(State(), i, kind, key)
      {
        if HasEventKey(outbox, id, kind, key) && outbox[id].Pending() { gone := gone + {id}; }
      }
      deleted := |gone|;
      assert gone <= outbox.Keys by { assert forall i :: i in gone ==> i in outbox; }
      RemovalCount(outbox, gone);
      outbox := outbox - gone;
    }

    /** Deletes unleased live jobs and pending events of a key, and counts what it deleted. */
    method Cancel(kind: string, key: string) returns (deleted: nat)
      requires Valid()
      modifies this`jobs, this`outbox
      ensures Valid()
      ensures State() == CancelRows(old(State()), kind, key)
      ensures deleted == |old(jobs)| - |jobs| + |old(outbox)| - |outbox|
      ensures forall id :: id in old(jobs) ==>
                if old(jobs)[id].kind == kind && old(jobs)[id].logicalKey == Some(key) && old(jobs)[id].deadAt == None
                   && H.Idle(old(jobs)[id], clock)
                then id !in jobs else id in jobs && jobs[id] == old(jobs)[id]
      ensures forall e :: e in old(outbox) ==>
                if old(outbox)[e].kind == kind && old(outbox)[e].logicalKey == Some(key) && old(outbox)[e].dispatchedAt == None
                then e !in outbox else e in outbox && outbox[e] == old(outbox)[e]
    {
      hide Evolves, StreamOrder, LiveKeysUnique, EventKeysUnique, DraftsOk;
      CancelEvolves(State(), kind, key);
      var fromJobs := DeleteJobs(kind, key);
      var fromEvents := DeleteEvents(kind, key);
      deleted := fromJobs + fromEvents;
      assert State() == CancelRows(old(State()), kind, key);
    }

    // -------------------------------------------------------------- outbox

    /** In the caller's transaction `t`. The row stays invisible until `t` commits. */
    method RecordOutbox(t: int, spec: JobSpec) returns (r: Result<int, QueueError>)
      requires Valid() && KeyFree(open, t, spec.kind, spec.logicalKey)
      modifies this`open, this`nextEventId
      ensures Valid()
      ensures !spec.Valid() ==> r == Err(InvalidInput) && State() == old(State())
      ensures spec.Valid() ==> r.Ok? && (State(), r.value) == RecordRow(old(State()), t, spec)
      ensures r.Ok? ==> r.value in open && open[r.value].tx == t && O.Records(open[r.value].event, spec)
      ensures r.Ok? && !O.Recorded(old(State()), spec.kind, spec.logicalKey) ==> r.value == old(nextEventId)
    {
      if !spec.Valid() { return Err(InvalidInput); }
      O.RecordTells(State(), t, spec);
      RecordEvolves(State(), t, spec);
      var holder := FindRecorded(spec.kind, spec.logicalKey);
      var id := if holder.Some? then holder.value else nextEventId;
      open := open[id := Draft(t, OutboxEvent(spec.kind, spec.logicalKey, PayloadOf(spec), None))];
      nextEventId := nextEventId + 1;
      assert State() == RecordRow(old(State()), t, spec).0;
      return Ok(id);
    }

    method RecordOutboxOnce(t: int, spec: JobSpec) returns (r: Result<bool, QueueError>)
      requires Valid() && KeyFree(open, t, spec.kind, spec.logicalKey)
      modifies this`open, this`nextEventId
      ensures Valid()
      ensures !spec.Valid() ==> r == Err(InvalidInput) && State() == old(State())
      ensures spec.Valid() ==> r.Ok? && (State(), r.value) == RecordOnceRow(old(State()), t, spec)
      ensures r.Ok? ==> (r.value <==> !O.Recorded(old(State()), spec.kind, spec.logicalKey))
      ensures r == Ok(true) ==>
                && old(nextEventId) in open && open == old(open)[old(nextEventId) := open[old(nextEventId)]]
                && open[old(nextEventId)].tx == t && O.Records(open[old(nextEventId)].event, spec)
      ensures r == Ok(false) ==> open == old(open) && outbox == old(outbox)
    {
      if !spec.Valid() { return Err(InvalidInput); }
      O.RecordOnceTells(State(), t, spec);
      RecordEvolves(State(), t, spec);
      var holder := FindRecorded(spec.kind, spec.logicalKey);
      if holder.None? {
        open := open[nextEventId := Draft(t, OutboxEvent(spec.kind, spec.logicalKey, PayloadOf(spec), None))];
      }
      nextEventId := nextEventId + 1;
      assert State() == RecordOnceRow(old(State()), t, spec).0;
      return Ok(holder.None?);
    }

    /** The recording side of a transaction's commit. */
    method Commit(t: int)
      requires Valid()
      modifies this`outbox, this`open
      ensures Valid() && State() == CommitRows(old(State()), t)
      ensures forall e :: e in old(open) ==>
                if old(open)[e].tx == t then e in outbox && outbox[e] == old(open)[e].event && e !in open
                else e in open && open[e] == old(open)[e]
      ensures forall e :: e in outbox && !(e in old(open) && old(open)[e].tx == t) ==>
                e in old(outbox) && outbox[e] == old(outbox)[e]
      ensures old(outbox).Keys <= outbox.Keys && open.Keys <= old(open).Keys
    {
      hide Evolves, StreamOrder, LiveKeysUnique, EventKeysUnique, DraftsOk;
      CommitEvolves(State(), t);
      outbox := outbox + (map id | id in open && open[id].tx == t :: open[id].event);
      open := map id | id in open && open[id].tx != t :: open[id];
      assert State() == CommitRows(old(State()), t);
    }

    method Abort(t: int)
      requires Valid()
      modifies this`open
      ensures Valid() && State() == AbortRows(old(State()), t)
      ensures forall e :: e in open <==> e in old(open) && old(open)[e].tx != t
    {
      CommitEvolves(State(), t);
      open := map id | id in open && open[id].tx != t :: open[id];
      assert State() == AbortRows(old(State()), t);
    }

    method CheckSelectable(id: int) returns (selectable: bool)
      requires Valid()
      ensures selectable == Selectable(State(), id)
    {
      if id !in outbox || id in open || !outbox[id].Pending() || outbox[id].kind == STREAM_KIND { return false; }
      for previous := 1 to id
        invariant forall p :: 1 <= p < previous ==> !EarlierPending(State(), id, p)
      {
        if previous in outbox && outbox[previous].Pending()
          && PairOf(outbox[id]).Some? && PairOf(outbox[previous]) == PairOf(outbox[id])
        {
          assert EarlierPending(State(), id, previous);
          return false;
        }
      }
      var holder := FindHolder(outbox[id].kind, outbox[id].logicalKey);
      return holder.None?;
    }

    method SelectRows(limit: int) returns (rows: seq<int>)
      requires Valid() && limit > 0
      ensures IsSelection(State(), rows, limit)
    {
      rows := [];
      var id := 1;
      while id < nextEventId && |rows| < limit
        invariant 1 <= id
        invariant |rows| <= limit
        invariant forall i :: 0 <= i < |rows| ==> Selectable(State(), rows[i]) && rows[i] < id
        invariant forall i, j :: 0 <= i < j < |rows| ==> rows[i] < rows[j]
        invariant forall e :: e < id && Selectable(State(), e) ==> e in rows
        decreases nextEventId - id
      {
        var selectable := CheckSelectable(id);
        if selectable { rows := rows + [id]; }
        id := id + 1;
      }
    }

    /** One turn of the dispatch loop: enqueue the first event's job and mark the event dispatched. */
    method DispatchFirst(rows: seq<int>, spec: JobSpec) returns (inserted: bool)
      requires Valid() && rows != [] && Ready(State(), rows)
      requires OutboxSpec(outbox[rows[0]]) == Ok(spec)
      modifies this`jobs, this`nextJobId, this`markers, this`outbox
      ensures Valid() && Ready(State(), rows[1..])
      ensures inserted && (State(), 1) == DispatchRow(old(State()), rows[0], spec)
    {
      var id := rows[0];
      TurnHandsOver(State(), rows, spec);
      var key := DeliveryKeyOf(spec);
      if key.Some? {
        var _ := InsertOrdered(spec, key.value, DELIVERY_DOMAIN);
        inserted := true;
      } else {
        var holder := FindHolder(spec.kind, spec.logicalKey);
        inserted := holder.None?;
        var _ := Insert(spec, None, spec.runAt);
      }
      if inserted {
        outbox := outbox[id := outbox[id].(dispatchedAt := Some(clock))];
      }
      assert State() == DispatchRow(old(State()), id, spec).0;
    }

    /** The dispatch loop over the selected rows; it stops at the first malformed one. */
    method DispatchSelected(rows: seq<int>) returns (r: Result<int, QueueError>)
      requires Valid() && Ready(State(), rows)
      modifies this`jobs, this`nextJobId, this`markers, this`outbox
      ensures match DispatchRows(old(State()), rows)
              case Err(e) => r == Err(e)
              case Ok((db, n)) => r == Ok(n) && State() == db && Valid()
    {
      ghost var trace := [State()];
      var dispatched := 0;
      for i := 0 to |rows|
        invariant Valid() && Ready(State(), rows[i..])
        invariant |trace| == i + 1 && trace[0] == old(State()) && trace[i] == State() && dispatched == i
        invariant forall k :: 0 <= k < i ==> Turn(trace[k], rows[k], trace[k + 1])
      {
        assert rows[i..][0] == rows[i] && rows[i..][1..] == rows[i + 1..];
        var spec := OutboxSpec(outbox[rows[i]]);
        if spec.Err? {
          TurnsFail(trace, rows, i);
          return Err(spec.error);
        }
        ghost var before := State();
        var inserted := DispatchFirst(rows[i..], spec.value);
        if inserted { dispatched := dispatched + 1; }
        assert Turn(before, rows[i], State());
        trace := trace + [State()];
      }
      TurnsCompose(trace, rows);
      return Ok(dispatched);
    }

    /** Converts pending events to jobs; a malformed event rolls the whole transaction back. */
    method DispatchOutbox(limit: int) returns (r: Result<int, QueueError>, ghost rows: seq<int>)
      requires Valid()
      modifies this
      ensures Valid()
      ensures limit <= 0 ==> r == Err(InvalidInput) && State() == old(State())
      ensures limit > 0 ==> IsSelection(old(State()), rows, limit)
      ensures limit > 0 ==>
                match DispatchRows(old(State()), rows)
                case Err(e) => r == Err(e) && State() == old(State())
                case Ok((db, n)) => r == Ok(n) && State() == db
      // In the events' own fields: what is selected is pending and held up by nothing, and what is
      // passed over is held up by something or comes after a full selection.
      ensures limit > 0 ==> forall e :: e in rows ==>
                e in old(outbox) && old(outbox)[e].dispatchedAt == None && !O.HeldUp(old(State()), e)
      ensures limit > 0 ==> forall e :: e in old(outbox) && old(outbox)[e].dispatchedAt == None && e !in rows ==>
                O.HeldUp(old(State()), e) || (|rows| == limit && forall i :: 0 <= i < |rows| ==> rows[i] < e)
    {
      if limit <= 0 { return Err(InvalidInput), []; }
      forall e | e in outbox
        ensures Selectable(State(), e) <==> outbox[e].dispatchedAt == None && !O.HeldUp(State(), e)
      {
        O.SelectableMeansFree(State(), e);
      }
      var jobs0, nextJobId0, outbox0, markers0 := jobs, nextJobId, outbox, markers;
      var selected := SelectRows(limit);
      rows := selected;
      SelectableIsReady(State(), selected);
      r := DispatchSelected(selected);
      if r.Err? {
        jobs, nextJobId, outbox, markers := jobs0, nextJobId0, outbox0, markers0;
        assert State() == old(State());
      }
    }

    // --------------------------------------------------------- poll repair

    /** `poll_expiration_effect` recording: the first outcome of a generation stays. */
    method RecordPollEffect(pollId: int, generation: int, outcome: Outcome) returns (r: Result<(), QueueError>)
      requires Valid()
      modifies this`effects
      ensures Valid()
      ensures (State(), r) == RecordEffect(old(State()), pollId, generation, outcome)
    {
      var at := (pollId, generation);
      if at !in effects { effects := effects[at := Recorded(outcome)]; }
      if effects[at] != Recorded(outcome) { return Err(InvalidData); }
      return Ok(());
    }

    method FindMalformedRepair(q: Request) returns (blocking: Option<int>)
      requires Valid()
      ensures blocking == MalformedRepair(jobs, q)
    {
      blocking := FindHolder(POLL_KIND, Some(RepairKey(q)));
      if blocking.Some? && Matches(jobs[blocking.value].args.own, q) { blocking := None; }
    }

    method FindLive(q: Request, keys: seq<string>) returns (live: Option<int>)
      requires Valid()
      ensures live == FirstLive(jobs, q, keys)
    {
      for i := 0 to |keys|
        invariant FirstLive(jobs, q, keys) == FirstLive(jobs, q, keys[i..])
      {
        assert keys[i..][0] == keys[i] && keys[i..][1..] == keys[i + 1..];
        live := FindHolder(POLL_KIND, Some(keys[i]));
        if live.Some? && Matches(jobs[live.value].args.own, q) { return; }
      }
      live := None;
    }

    method FindPending(q: Request, keys: seq<string>) returns (pending: Option<int>)
      requires Valid()
      ensures pending == FirstPending(outbox, q, keys)
    {
      for i := 0 to |keys|
        invariant FirstPending(outbox, q, keys) == FirstPending(outbox, q, keys[i..])
      {
        assert keys[i..][0] == keys[i] && keys[i..][1..] == keys[i + 1..];
        pending := FindEvent(POLL_KIND, Some(keys[i]));
        if pending.Some? && outbox[pending.value].Pending() && outbox[pending.value].payload.Payload?
          && Matches(outbox[pending.value].payload.args, q)
        {
          return;
        }
      }
      pending := None;
    }

    /** Looks up everything the decision depends on. */
    method Survey(q: Request) returns (keys: seq<string>, live: Option<int>, pending: Option<int>, state: RepairState)
      requires Valid()
      ensures keys == Keys(jobs, q)
      ensures live == FirstLive(jobs, q, keys) && pending == FirstPending(outbox, q, keys)
      ensures state == StateOf(State(), q)
    {
      keys := BaseKeys(q);
      var blocking := FindMalformedRepair(q);
      if blocking.Some? { keys := [RecoveryKey(q, blocking.value)] + keys; }
      pending := FindPending(q, keys);
      live := FindLive(q, keys);
      state := RepairState(
        (q.pollId, q.expiresAt) in effects,
        if live.Some? then Some(jobs[live.value].runAt) else None,
        if live.Some? then Expected(q, jobs[live.value].logicalKey) else q.target,
        live.Some? && jobs[live.value].Leased(clock),
        live.Some? && jobs[live.value].attempts > 0,
        if pending.Some? then Some(outbox[pending.value].payload.runAt) else None,
        if pending.Some? then Expected(q, outbox[pending.value].logicalKey) else q.target);
    }

    method CreateRepair(q: Request)
      requires Valid()
      modifies this`jobs, this`nextJobId
      ensures Valid()
      ensures State() == EnqueueRow(old(State()), RepairSpec(old(jobs), q), None, q.target).0
    {
      var repair := ExpirationJob(q.pollId, q.expiresAt, RepairIntent, q.target);
      var blocking := FindMalformedRepair(q);
      if blocking.Some? { repair := repair.(logicalKey := Some(RecoveryKey(q, blocking.value))); }
      var _ := Insert(repair, None, q.target);
    }

    /** Moves or creates at most one row so that the generation's work is due in time. */
    method ReconcilePollExpiration(q: Request, activation: int) returns (r: Result<RepairAction, QueueError>)
      requires Valid()
      modifies this
      ensures Valid()
      ensures (State(), r) == Reconcile(old(State()), q, activation)
    {
      RepairEvolves(State(), q, activation);
      if q.pollId <= 0 { return Err(InvalidInput); }
      var at := (q.pollId, q.expiresAt);
      if at in effects && effects[at] == Corrupt { return Err(InvalidData); }
      if q.expiresAt <= activation {
        if at !in effects { effects := effects[at := Recorded(HistoricalBaseline)]; }
        return Ok(RepairAction.Completed);
      }
      var keys, live, pending, state := Survey(q);
      var action := Decide(state);
      Perform(q, action, live, pending, state);
      return Ok(action);
    }

    /** Carries out the decided action on what the survey found. */
    method Perform(q: Request, action: RepairAction, live: Option<int>, pending: Option<int>, state: RepairState)
      requires Valid() && state == StateOf(State(), q) && action == Decide(state)
      requires live == FirstLive(jobs, q, Keys(jobs, q)) && pending == FirstPending(outbox, q, Keys(jobs, q))
      modifies this`jobs, this`nextJobId, this`outbox
      ensures State() == Act(old(State()), q, action)
    {
      match action {
        case MoveEarlier =>
          jobs := jobs[live.value := jobs[live.value].(runAt := state.liveExpected)];
        case MovePendingEarlier =>
          var event := outbox[pending.value];
          outbox := outbox[pending.value := event.(payload := event.payload.(runAt := state.pendingExpected))];
        case Create =>
          CreateRepair(q);
        case _ =>
      }
    }
  }

  lemma DraftHolderIs(db: Db, kind: string, key: string, id: int)
    requires WellFormed(db) && DraftsKey(db.open, id, kind, key)
    ensures DraftHolder(db.open, kind, Some(key)) == Some(id)
  {
    var holder := DraftHolder(db.open, kind, Some(key));
    assert holder.Some? && (holder.value != id ==> SameKey(db.open[id].event, db.open[holder.value].event));
  }

  lemma RemovalCount<T>(rows: map<int, T>, gone: set<int>)
    requires gone <= rows.Keys
    ensures |rows - gone| == |rows| - |gone|
  {
    assert (rows - gone).Keys == rows.Keys - gone;
  }

  /** One successful turn of the dispatch loop. */
  ghost predicate Turn(a: Db, id: int, b: Db) {
    && id in a.outbox
    && OutboxSpec(a.outbox[id]).Ok?
    && DispatchRow(a, id, OutboxSpec(a.outbox[id]).value) == (b, 1)
  }

  lemma TurnKeepsEvents(a: Db, id: int, b: Db)
    requires Turn(a, id, b)
    ensures b.outbox.Keys == a.outbox.Keys
  {
  }

  lemma {:induction false} TurnsCompose(trace: seq<Db>, rows: seq<int>)
    requires |trace| == |rows| + 1
    requires forall k :: 0 <= k < |rows| ==> rows[k] in trace[0].outbox
    requires forall k :: 0 <= k < |rows| ==> Turn(trace[k], rows[k], trace[k + 1])
    ensures DispatchRows(trace[0], rows) == Ok((trace[|rows|], |rows|))
  {
    if rows != [] {
      TurnKeepsEvents(trace[0], rows[0], trace[0 + 1]);
      forall k | 0 <= k < |rows[1..]| ensures Turn(trace[1..][k], rows[1..][k], trace[1..][k + 1]) {
        assert Turn(trace[k + 1], rows[k + 1], trace[k + 1 + 1]);
      }
      TurnsCompose(trace[1..], rows[1..]);
    }
  }

  lemma {:induction false} TurnsFail(trace: seq<Db>, rows: seq<int>, i: nat)
    requires |trace| == i + 1 && i < |rows|
    requires forall k :: 0 <= k < |rows| ==> rows[k] in trace[0].outbox
    requires forall k :: 0 <= k < i ==> Turn(trace[k], rows[k], trace[k + 1])
    requires rows[i] in trace[i].outbox && OutboxSpec(trace[i].outbox[rows[i]]).Err?
    ensures DispatchRows(trace[0], rows) == Err(OutboxSpec(trace[i].outbox[rows[i]]).error)
  {
    if i > 0 {
      TurnKeepsEvents(trace[0], rows[0], trace[0 + 1]);
      forall k | 0 <= k < i - 1 ensures Turn(trace[1..][k], rows[1..][k], trace[1..][k + 1]) {
        assert Turn(trace[k + 1], rows[k + 1], trace[k + 1 + 1]);
      }
      assert trace[1..][i - 1] == trace[i] && rows[1..][i - 1] == rows[i];
      TurnsFail(trace[1..], rows[1..], i - 1);
    }
  }
}
