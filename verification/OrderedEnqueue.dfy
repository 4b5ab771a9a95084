/** What an enqueue answers, and how the rows of one stream are linked and spaced in time. */
module OrderedEnqueue {
  import opened Wrappers
  import opened QueueModel
  import opened QueueInvariants
  import opened QueueRuns
  import opened QueueLeases

  /** A live row has the kind and the key. */
  predicate KeyTaken(jobs: map<int, Job>, kind: string, key: Option<string>) {
    key.Some? && exists id :: id in jobs && jobs[id].deadAt == None && jobs[id].kind == kind && jobs[id].logicalKey == key
  }

  /** A job nobody has touched yet. */
  predicate IsNew(job: Job, spec: JobSpec, ordering: Option<Ordering>, runAt: int) {
    && job.lane == spec.lane && job.kind == spec.kind && job.logicalKey == spec.logicalKey
    && job.args.own == spec.args && job.args.ordering == ordering
    && job.runAt == runAt && job.attempts == 0 && job.maxAttempts == spec.maxAttempts
    && job.generation == 0 && job.lease == None && job.deadAt == None
  }

  /** The answer names a live row of that kind and key: the one there is, left as it is, or else a
      new one with everything the caller asked for. */
  lemma EnqueueAnswers(db: Db, spec: JobSpec, ordering: Option<Ordering>, runAt: int)
    ensures var (db', id) := EnqueueRow(db, spec, ordering, runAt);
            && id in db'.jobs && db'.jobs[id].deadAt == None
            && db'.jobs[id].kind == spec.kind && db'.jobs[id].logicalKey == spec.logicalKey
            && (if KeyTaken(db.jobs, spec.kind, spec.logicalKey) then db'.jobs == db.jobs
                else id == db.nextJobId && db'.jobs == db.jobs[id := db'.jobs[id]] && IsNew(db'.jobs[id], spec, ordering, runAt))
            && db' == db.(jobs := db'.jobs, nextJobId := db.nextJobId + 1)
  {
    var holder := LiveHolder(db.jobs, spec.kind, spec.logicalKey);
    if holder.None? && KeyTaken(db.jobs, spec.kind, spec.logicalKey) {
      var id :| id in db.jobs && db.jobs[id].deadAt == None && db.jobs[id].kind == spec.kind && db.jobs[id].logicalKey == spec.logicalKey;
      assert HoldsKey(db.jobs, id, spec.kind, spec.logicalKey.value);
    }
  }

  /** The row the stream's marker names, if there is one. */
  function Link(db: Db, domain: string, key: OrderingKey): Option<int> {
    if (domain, key) in db.markers then db.markers[(domain, key)].jobId else None
  }

  /** The earliest instant that is neither before `wanted` nor within the marker's. */
  predicate NextInStream(db: Db, domain: string, key: OrderingKey, wanted: int, due: int) {
    if Link(db, domain, key).None? then due == wanted
    else
      var last := db.markers[(domain, key)].orderingAt;
      wanted <= due && last < due && (due == wanted || due == last + 1)
  }

  /** A new row of a stream is linked to the marker's row, is due after it, and is the marker's row
      from then on; a row that was there before only becomes the marker's. */
  lemma OrderedAnswers(db: Db, spec: JobSpec, key: OrderingKey, domain: string)
    ensures var (db', id) := EnqueueOrderedRow(db, spec, key, domain);
            && id in db'.jobs && db'.jobs[id].kind == spec.kind && db'.jobs[id].logicalKey == spec.logicalKey
            && (domain, key) in db'.markers
            && var due := db'.markers[(domain, key)].orderingAt;
               && NextInStream(db, domain, key, spec.runAt, due)
               && db'.markers == db.markers[(domain, key) := Marker(due, Some(id))]
               && (if KeyTaken(db.jobs, spec.kind, spec.logicalKey) then db'.jobs == db.jobs
                   else
                     && id == db.nextJobId && db'.jobs == db.jobs[id := db'.jobs[id]]
                     && IsNew(db'.jobs[id], spec, Some(Ordering(key, Link(db, domain, key))), due))
               && db' == db.(jobs := db'.jobs, nextJobId := db.nextJobId + 1, markers := db'.markers)
  {
    var marker := MarkerOf(db, domain, key, spec.runAt);
    EnqueueAnswers(db, spec, Some(Ordering(key, marker.jobId)), OrderedRunAt(marker, spec.runAt));
    hide EnqueueRow;
  }

  /** A dispatched delivery with a usable inbox is appended to the stream of its account and trimmed
      inbox; anything else becomes a plain job. Either way the event is marked dispatched now. */
  lemma DispatchAnswers(db: Db, e: int, spec: JobSpec)
    requires e in db.outbox && !KeyTaken(db.jobs, spec.kind, spec.logicalKey)
    ensures var (db', n) := DispatchRow(db, e, spec);
            var id, own := db.nextJobId, spec.args;
            && n == 1 && id in db'.jobs && db'.jobs == db.jobs[id := db'.jobs[id]]
            && db'.outbox == db.outbox[e := db.outbox[e].(dispatchedAt := Some(db.clock))]
            && if spec.kind == DELIVERY_KIND && own.source.Some? && own.inbox.Some? && Trim(own.inbox.value) != "" then
                 var key := Delivery(own.source.value, Trim(own.inbox.value));
                 && NextInStream(db, DELIVERY_DOMAIN, key, spec.runAt, db'.jobs[id].runAt)
                 && IsNew(db'.jobs[id], spec, Some(Ordering(key, Link(db, DELIVERY_DOMAIN, key))), db'.jobs[id].runAt)
                 && db'.markers == db.markers[(DELIVERY_DOMAIN, key) := Marker(db'.jobs[id].runAt, Some(id))]
               else IsNew(db'.jobs[id], spec, None, spec.runAt) && db'.markers == db.markers
  {
    EnqueueAnswers(db, spec, None, spec.runAt);
    if DeliveryKeyOf(spec).Some? { OrderedAnswers(db, spec, DeliveryKeyOf(spec).value, DELIVERY_DOMAIN); }
    var holder := LiveHolder(db.jobs, spec.kind, spec.logicalKey);
    assert holder.None?;
    hide EnqueueRow, EnqueueOrderedRow;
  }

  // ---------------------------------------------------------- over whole runs

  /** The marker names a row and stands at `due` or later. */
  predicate MarkedFrom(markers: map<(string, OrderingKey), Marker>, at: (string, OrderingKey), due: int) {
    at in markers && markers[at].jobId.Some? && due <= markers[at].orderingAt
  }

  lemma OrderedMarks(db: Db, spec: JobSpec, key: OrderingKey, domain: string, at: (string, OrderingKey), due: int)
    requires MarkedFrom(db.markers, at, due)
    ensures MarkedFrom(EnqueueOrderedRow(db, spec, key, domain).0.markers, at, due)
  {
    OrderedAnswers(db, spec, key, domain);
    hide EnqueueOrderedRow;
  }

  lemma {:induction false} DispatchMarks(db: Db, rows: seq<int>, at: (string, OrderingKey), due: int)
    requires forall i :: 0 <= i < |rows| ==> rows[i] in db.outbox
    requires DispatchRows(db, rows).Ok? && MarkedFrom(db.markers, at, due)
    ensures MarkedFrom(DispatchRows(db, rows).value.0.markers, at, due)
    decreases rows
  {
    if rows != [] {
      var spec := OutboxSpec(db.outbox[rows[0]]).value;
      var mid := DispatchRow(db, rows[0], spec).0;
      assert mid.outbox.Keys == db.outbox.Keys && MarkedFrom(mid.markers, at, due) by {
        EventAnswers(db, rows[0], spec, at, due);
      }
      DispatchMarks(mid, rows[1..], at, due);
    }
  }

  lemma EventAnswers(db: Db, id: int, spec: JobSpec, at: (string, OrderingKey), due: int)
    requires id in db.outbox && MarkedFrom(db.markers, at, due)
    ensures DispatchRow(db, id, spec).0.outbox.Keys == db.outbox.Keys
    ensures MarkedFrom(DispatchRow(db, id, spec).0.markers, at, due)
  {
    EnqueueAnswers(db, spec, None, spec.runAt);
    if DeliveryKeyOf(spec).Some? {
      OrderedMarks(db, spec, DeliveryKeyOf(spec).value, DELIVERY_DOMAIN, at, due);
      OrderedAnswers(db, spec, DeliveryKeyOf(spec).value, DELIVERY_DOMAIN);
    }
    hide EnqueueRow, EnqueueOrderedRow;
  }

  lemma StepMarks(db: Db, step: Step, at: (string, OrderingKey), due: int)
    requires WellFormed(db) && Enabled(db, step) && MarkedFrom(db.markers, at, due)
    requires step.PruneMarkers? ==> at !in step.stale
    ensures MarkedFrom(Apply(db, step).markers, at, due)
  {
    hide Waits, WellFormed;
    match step
    case EnqueueOrdered(spec, key, domain) => OrderedMarks(db, spec, key, domain, at, due);
    case Dispatch(rows) =>
      SelectableIsReady(db, rows);
      DispatchMarks(db, rows, at, due);
    case PruneMarkers(_) =>
    case _ => StepTouches(db, step);
  }

  lemma {:induction false} StaysMarked(
      start: Db, run: seq<Step>, states: seq<Sys>, i: nat, j: nat, at: (string, OrderingKey), due: int)
    requires WellFormed(start) && IsRun(start, run, states) && i <= j <= |run| && MarkedFrom(states[i].db.markers, at, due)
    requires forall l :: i <= l < j && run[l].PruneMarkers? ==> at !in run[l].stale
    ensures MarkedFrom(states[j].db.markers, at, due)
    decreases j
  {
    hide MarkedFrom, WellFormed, Waits, Permitted, Apply;
    if i < j {
      StaysMarked(start, run, states, i, j - 1, at, due);
      RunKeepsLeases(start, run, states, j - 1);
      assert Takes(states[j - 1], run[j - 1], states[j - 1 + 1]);
      StepMarks(states[j - 1].db, run[j - 1], at, due);
    }
  }

  /** The step inserts a new row into the stream. */
  predicate Appends(db: Db, step: Step, key: OrderingKey, domain: string) {
    step.EnqueueOrdered? && step.key == key && step.domain == domain
    && !KeyTaken(db.jobs, step.spec.kind, step.spec.logicalKey)
  }

  /**
   Rows of one stream are due in the order in which they were enqueued: as long as the stream's marker
   is not pruned, a later ordered enqueue inserts its row with a larger id and a strictly later time.
   */
  lemma StreamsAreSpaced(
      start: Db, run: seq<Step>, states: seq<Sys>, i: nat, j: nat, key: OrderingKey, domain: string)
    requires WellFormed(start) && IsRun(start, run, states) && i < j < |run|
    requires Appends(states[i].db, run[i], key, domain) && Appends(states[j].db, run[j], key, domain)
    requires forall l :: i < l < j && run[l].PruneMarkers? ==> (domain, key) !in run[l].stale
    ensures var first, second := states[i].db.nextJobId, states[j].db.nextJobId;
            && first in states[i + 1].db.jobs && second in states[j + 1].db.jobs
            && first < second
            && states[i + 1].db.jobs[first].runAt < states[j + 1].db.jobs[second].runAt
            && run[j].spec.runAt <= states[j + 1].db.jobs[second].runAt
  {
    hide WellFormed, Waits, IsNew;
    AppendedAt(start, run, states, i, key, domain);
    AppendedAt(start, run, states, j, key, domain);
    StaysMarked(start, run, states, i + 1, j, (domain, key), states[i + 1].db.jobs[states[i].db.nextJobId].runAt);
    IdsGrow(start, run, states, i + 1, j);
  }

  lemma AppendedAt(start: Db, run: seq<Step>, states: seq<Sys>, i: nat, key: OrderingKey, domain: string)
    requires WellFormed(start) && IsRun(start, run, states) && i < |run| && Appends(states[i].db, run[i], key, domain)
    ensures var (db, next, id) := (states[i].db, states[i + 1].db, states[i].db.nextJobId);
            && id in next.jobs && next.nextJobId == id + 1
            && NextInStream(db, domain, key, run[i].spec.runAt, next.jobs[id].runAt)
            && MarkedFrom(next.markers, (domain, key), next.jobs[id].runAt)
  {
    hide EnqueueOrderedRow, Waits;
    assert Takes(states[i], run[i], states[i + 1]);
    OrderedAnswers(states[i].db, run[i].spec, key, domain);
  }

  lemma {:induction false} IdsGrow(start: Db, run: seq<Step>, states: seq<Sys>, i: nat, j: nat)
    requires WellFormed(start) && IsRun(start, run, states) && i <= j <= |run|
    ensures states[i].db.nextJobId <= states[j].db.nextJobId
    decreases j
  {
    hide RowStep, FreshRow, Waits, Permitted, Apply, WellFormed;
    if i < j {
      IdsGrow(start, run, states, i, j - 1);
      RunKeepsLeases(start, run, states, j - 1);
      assert Takes(states[j - 1], run[j - 1], states[j - 1 + 1]);
      StepEvolves(states[j - 1].db, run[j - 1]);
    }
  }
}
