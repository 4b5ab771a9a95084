/** Complete runs in which one of the two delivery orders fails, from empty tables to finished jobs. */
module DeliveryRuns {
  import opened Wrappers
  import opened QueueModel
  import opened QueueInvariants
  import opened QueueRuns
  import opened DeliveryOrder

  function Post(pair: (int, string), key: Option<string>): JobSpec {
    JobSpec(Push, DELIVERY_KIND, CallerArgs(None, None, Some(pair.0), Some(pair.1), map[]), key, 0, 25)
  }

  function EmptyTables(): Db { Db(map[], 1, map[], 1, map[], map[], map[], 2) }

  /** The job an event of the pair becomes, behind the given predecessor. */
  function Queued(pair: (int, string), key: Option<string>, marker: Marker): Job {
    NewJob(Post(pair, key), Some(Ordering(PairKey(pair), marker.jobId)), OrderedRunAt(marker, 0))
  }

  ghost predicate Extends(run: seq<Step>, states: seq<Sys>) {
    && |states| == |run| + 1
    && states[0] == Sys(EmptyTables(), {}, [], [], [])
    && forall i :: 0 <= i < |run| ==> Takes(states[i], run[i], states[i + 1])
  }

  lemma Extend(run: seq<Step>, states: seq<Sys>, step: Step, next: Sys)
    requires Extends(run, states) && Takes(states[|run|], step, next)
    ensures Extends(run + [step], states + [next])
  {
    var run', states' := run + [step], states + [next];
    forall i | 0 <= i < |run'| ensures Takes(states'[i], run'[i], states'[i + 1]) {
      if i < |run| { assert Takes(states[i], run[i], states[i + 1]); }
    }
  }

  // ----------------------------------------------------------- single statements

  lemma DispatchOne(db: Db, id: int, spec: JobSpec)
    requires id in db.outbox && OutboxSpec(db.outbox[id]) == Ok(spec) && Selectable(db, id)
    ensures Enabled(db, Dispatch([id]))
    ensures DispatchRows(db, [id]) == Ok(DispatchRow(db, id, spec))
  {
    assert [id][1..] == [];
  }

  function PairMarker(db: Db, pair: (int, string)): Marker { MarkerOf(db, DELIVERY_DOMAIN, PairKey(pair), 0) }

  /** Dispatching an event of the pair links its job to the marker's and moves the marker. */
  function Dispatched(db: Db, id: int, pair: (int, string), key: Option<string>): Db
    requires id in db.outbox
  {
    var marker := PairMarker(db, pair);
    db.(jobs := db.jobs[db.nextJobId := Queued(pair, key, marker)],
        nextJobId := db.nextJobId + 1,
        outbox := db.outbox[id := db.outbox[id].(dispatchedAt := Some(db.clock))],
        markers := db.markers[(DELIVERY_DOMAIN, PairKey(pair)) := Marker(OrderedRunAt(marker, 0), Some(db.nextJobId))])
  }

  lemma DispatchPost(db: Db, id: int, pair: (int, string), key: Option<string>)
    requires Trim(pair.1) != "" && id in db.outbox && db.outbox[id] == EventOf(Post(pair, key)) && Selectable(db, id)
    ensures Enabled(db, Dispatch([id]))
    ensures Apply(db, Dispatch([id])) == Dispatched(db, id, pair, key)
  {
    var spec := Post(pair, key);
    assert OutboxSpec(db.outbox[id]) == Ok(spec);
    DispatchOne(db, id, spec);
    assert DeliveryKeyOf(spec) == Some(PairKey(pair));
    assert LiveHolder(db.jobs, spec.kind, spec.logicalKey).None?;
  }

  ghost predicate Unblocked(db: Db, id: int) {
    && id in db.jobs && db.jobs[id].Live() && db.jobs[id].runAt <= db.clock && db.jobs[id].lease.None?
    && db.jobs[id].lane == Push && db.jobs[id].attempts == 0 && db.jobs[id].maxAttempts == 25
    && db.jobs[id].generation == 0 && PassesFences(db.jobs, id)
  }

  function Ended(db: Db, id: int): Settlement
    requires id in db.jobs
  {
    Settlement(id, "worker", 1, db.jobs[id].kind, db.jobs[id].args.Key(), Acknowledged)
  }

  /** A worker claims the job and completes it. */
  lemma Finish(run: seq<Step>, states: seq<Sys>, id: int) returns (run': seq<Step>, states': seq<Sys>)
    requires Extends(run, states) && Unblocked(states[|run|].db, id)
    ensures Extends(run', states') && run <= run' && states <= states'
    ensures var sys, last := states[|run|], states'[|run'|];
            && last.db == sys.db.(jobs := sys.db.jobs - {id})
            && last.settled == sys.settled + [Ended(sys.db, id)]
            && last.recorded == sys.recorded && last.sent == sys.sent
  {
    var sys := states[|run|];
    var claim := Claim(id, "worker", {Push}, 1000);
    var mid := Next(sys, claim);
    Extend(run, states, claim, mid);
    assert mid.db.jobs == sys.db.jobs[id := Leasing(sys.db.jobs[id], "worker", sys.db.clock + 1000000)];
    var complete := Complete(id, "worker", 1);
    assert Holds(mid.db, id, "worker", 1);
    var last := Next(mid, complete);
    Extend(run + [claim], states + [mid], complete, last);
    run', states' := run + [claim] + [complete], states + [mid] + [last];
    assert last.db.jobs == sys.db.jobs - {id};
  }

  /** Both transactions have drawn an id for the pair, 1 and 2, and neither has committed. */
  lemma DrawTwo(pair: (int, string)) returns (run: seq<Step>, states: seq<Sys>)
    ensures Extends(run, states) && |run| == 2
    ensures var event := EventOf(Post(pair, None));
            states[2] == Sys(EmptyTables().(nextEventId := 3, open := map[1 := Draft(1, event), 2 := Draft(2, event)]), {}, [], [], [])
  {
    var spec := Post(pair, None);
    var s0 := Sys(EmptyTables(), {}, [], [], []);
    var s1 := Next(s0, RecordOnce(1, spec));
    Extend([], [s0], RecordOnce(1, spec), s1);
    var s2 := Next(s1, RecordOnce(2, spec));
    Extend([] + [RecordOnce(1, spec)], [s0] + [s1], RecordOnce(2, spec), s2);
    run, states := [] + [RecordOnce(1, spec)] + [RecordOnce(2, spec)], [s0] + [s1] + [s2];
    assert s2.db.open == map[1 := Draft(1, EventOf(spec)), 2 := Draft(2, EventOf(spec))];
  }

  /** A transaction that recorded one event commits. */
  lemma CommitOne(run: seq<Step>, states: seq<Sys>, t: int, id: int) returns (run': seq<Step>, states': seq<Sys>)
    requires Extends(run, states) && Enters(states[|run|].db, t, id)
    requires forall d :: d in states[|run|].db.open ==> (states[|run|].db.open[d].tx == t <==> d == id)
    ensures Extends(run', states') && |run'| == |run| + 1
    ensures var sys := states[|run|];
            states'[|run'|] == sys.(
              db := sys.db.(outbox := sys.db.outbox[id := sys.db.open[id].event], open := sys.db.open - {id}),
              recorded := sys.recorded + [{id}])
  {
    var sys := states[|run|];
    var next := Next(sys, Commit(t));
    Extend(run, states, Commit(t), next);
    run', states' := run + [Commit(t)], states + [next];
    OneRow(sys.db, t, id);
  }

  lemma OneRow(db: Db, t: int, id: int)
    requires Enters(db, t, id)
    requires forall d :: d in db.open ==> (db.open[d].tx == t <==> d == id)
    ensures CommitRows(db, t) == db.(outbox := db.outbox[id := db.open[id].event], open := db.open - {id})
    ensures NewInLine(db, Commit(t)) == [{id}]
  {
    var db' := CommitRows(db, t);
    assert db.open[id].tx == t;
    var mine := map d | d in db.open && db.open[d].tx == t :: db.open[d].event;
    assert forall d :: d in mine <==> d == id;
    assert mine == map[id := db.open[id].event];
    var others := map d | d in db.open && db.open[d].tx != t :: db.open[d];
    assert forall d :: d in others <==> d in db.open && d != id;
    assert others == db.open - {id};
    assert db' == db.(outbox := db.outbox + mine, open := others);
    OneEnters(db, t, id);
  }

  lemma OneEnters(db: Db, t: int, id: int)
    requires Enters(db, t, id)
    requires forall d :: d in db.open ==> (db.open[d].tx == t <==> d == id)
    ensures NewInLine(db, Commit(t)) == [{id}]
  {
    var entering := set d | d in db.open && Enters(db, t, d);
    assert forall d :: d in entering <==> d == id;
    assert entering == {id};
    assert NewInLine(db, Commit(t)) == [entering];
  }

  lemma SendNext(run: seq<Step>, states: seq<Sys>, id: int, pair: (int, string), key: Option<string>)
      returns (run': seq<Step>, states': seq<Sys>)
    requires Extends(run, states) && Trim(pair.1) != ""
    requires var db := states[|run|].db;
             id in db.outbox && db.outbox[id] == EventOf(Post(pair, key)) && Selectable(db, id)
    ensures Extends(run', states') && |run'| == |run| + 1
    ensures var sys := states[|run|];
            states'[|run'|] == sys.(
              db := Dispatched(sys.db, id, pair, key),
              sent := sys.sent + [Sent(id, sys.db.nextJobId, Some(pair), Recording(sys.recorded, id))])
  {
    var sys := states[|run|];
    DispatchPost(sys.db, id, pair, key);
    var next := Next(sys, Dispatch([id]));
    Extend(run, states, Dispatch([id]), next);
    run', states' := run + [Dispatch([id])], states + [next];
    assert Sends(sys.db, sys.recorded, Dispatch([id])) == [Sent(id, sys.db.nextJobId, Some(pair), Recording(sys.recorded, id))];
  }

  /** Two events of the pair sent in this order, as the jobs `first` and the one behind it. */
  ghost predicate BothSent(sys: Sys, pair: (int, string), first: int, x: Sent, y: Sent) {
    && x in sys.sent && y in sys.sent && x.pair == Some(pair) && y.pair == Some(pair)
    && x.job == first && y.job == first + 1 && sys.db.clock == 2
    && sys.db.jobs.Keys == {first, first + 1}
    && (exists key, marker :: sys.db.jobs[first] == Queued(pair, key, marker) && OrderedRunAt(marker, 0) <= 2
          && (marker.jobId.Some? ==> marker.jobId.value < first))
    && (exists key, marker :: sys.db.jobs[first + 1] == Queued(pair, key, marker) && OrderedRunAt(marker, 0) <= 2
          && marker.jobId == Some(first))
  }

  /** Such jobs finish one after the other. */
  lemma FinishBoth(run: seq<Step>, states: seq<Sys>, pair: (int, string), first: int, x: Sent, y: Sent)
      returns (run': seq<Step>, states': seq<Sys>)
    requires Extends(run, states) && BothSent(states[|run|], pair, first, x, y)
    ensures Extends(run', states') && states'[|run'|].sent == states[|run|].sent
    ensures FinishedBefore(states'[|run'|].settled, x.job, y.job)
  {
    var sys := states[|run|];
    assert Unblocked(sys.db, first);
    run', states' := Finish(run, states, first);
    var mid := states'[|run'|];
    assert Unblocked(mid.db, first + 1);
    run', states' := Finish(run', states', first + 1);
    var settled, n := states'[|run'|].settled, |sys.settled|;
    assert settled == sys.settled + [Ended(sys.db, first), Ended(mid.db, first + 1)];
    assert settled[n].id == first && settled[n + 1].id == first + 1;
  }

  /** The second event is recorded and sent before the first one's transaction commits. */
  lemma SendSecondThenFirst(pair: (int, string)) returns (run: seq<Step>, states: seq<Sys>, x: Sent, y: Sent)
    requires Trim(pair.1) != ""
    ensures Extends(run, states) && BothSent(states[|run|], pair, 1, x, y) && x.event == 2 && y.event == 1
  {
    var event := EventOf(Post(pair, None));
    run, states := DrawTwo(pair);
    run, states := CommitOne(run, states, 2, 2);
    run, states := SendNext(run, states, 2, pair, None);
    assert states[|run|].db.open == map[1 := Draft(1, event)];
    run, states := CommitOne(run, states, 1, 1);
    assert Selectable(states[|run|].db, 1);
    run, states := SendNext(run, states, 1, pair, None);
    x, y := states[|run|].sent[0], states[|run|].sent[1];
  }

  /** The second event is recorded first, but the first one commits before a dispatch comes by. */
  lemma RecordSecondThenFirst(pair: (int, string)) returns (run: seq<Step>, states: seq<Sys>, x: Sent, y: Sent)
    requires Trim(pair.1) != ""
    ensures Extends(run, states) && BothSent(states[|run|], pair, 1, x, y)
    ensures x.event == 1 && x.recording == 1 && y.event == 2 && y.recording == 0
  {
    run, states := RecordSecondFirst(pair);
    assert Selectable(states[|run|].db, 1);
    run, states := SendNext(run, states, 1, pair, None);
    assert Selectable(states[|run|].db, 2);
    run, states := SendNext(run, states, 2, pair, None);
    x, y := states[|run|].sent[0], states[|run|].sent[1];
  }

  lemma RecordSecondFirst(pair: (int, string)) returns (run: seq<Step>, states: seq<Sys>)
    ensures Extends(run, states)
    ensures var sys, event := states[|run|], EventOf(Post(pair, None));
            && sys.db == EmptyTables().(nextEventId := 3, outbox := map[1 := event, 2 := event])
            && sys.sent == [] && sys.settled == []
            && Recording(sys.recorded, 1) == 1 && Recording(sys.recorded, 2) == 0
  {
    var event := EventOf(Post(pair, None));
    run, states := DrawTwo(pair);
    run, states := CommitOne(run, states, 2, 2);
    assert states[|run|].db.open == map[1 := Draft(1, event)];
    run, states := CommitOne(run, states, 1, 1);
    var recorded := states[|run|].recorded;
    assert recorded == [{2}, {1}] && recorded[..1] == [{2}];
    assert states[|run|].db.outbox == map[1 := event, 2 := event] && states[|run|].db.open == map[];
  }

  /** Draw order fails when a transaction commits after a later draw was already sent. */
  lemma LateCommitRun(pair: (int, string)) returns (run: seq<Step>, states: seq<Sys>, x: Sent, y: Sent)
    requires Trim(pair.1) != ""
    ensures WellFormed(EmptyTables()) && IsRun(EmptyTables(), run, states)
    ensures var sys := states[|run|];
            && x in sys.sent && y in sys.sent && x.pair == Some(pair) && y.pair == Some(pair)
            && FinishedBefore(sys.settled, x.job, y.job) && y.event < x.event
  {
    run, states, x, y := SendSecondThenFirst(pair);
    run, states := FinishBoth(run, states, pair, 1, x, y);
  }

  /** Recording order fails when a transaction commits while a later draw is waiting in line. */
  lemma OvertakingRun(pair: (int, string)) returns (run: seq<Step>, states: seq<Sys>, x: Sent, y: Sent)
    requires Trim(pair.1) != ""
    ensures WellFormed(EmptyTables()) && IsRun(EmptyTables(), run, states)
    ensures var sys := states[|run|];
            && x in sys.sent && y in sys.sent && x.pair == Some(pair) && y.pair == Some(pair)
            && FinishedBefore(sys.settled, x.job, y.job)
            && Earlier(y.recording, y.event, x.recording, x.event)
  {
    run, states, x, y := RecordSecondThenFirst(pair);
    run, states := FinishBoth(run, states, pair, 1, x, y);
  }

  /** An event recorded, sent and finished; a second one recorded and waiting. */
  lemma FirstDoneSecondWaiting(pair: (int, string), key: string) returns (run: seq<Step>, states: seq<Sys>)
    requires Trim(pair.1) != ""
    ensures Extends(run, states)
    ensures var sys, old', new' := states[|run|], EventOf(Post(pair, Some(key))), EventOf(Post(pair, None));
            && sys.db.outbox == map[1 := old'.(dispatchedAt := Some(2)), 2 := new'] && sys.db.open == map[]
            && sys.db.jobs == map[] && sys.db.nextJobId == 2 && sys.db.nextEventId == 3 && sys.db.clock == 2
            && PairMarker(sys.db, pair) == Marker(0, Some(1)) && sys.recorded == [{1}, {2}]
  {
    run, states := FirstDone(pair, key);
    var sys := states[|run|];
    var step := RecordOnce(2, Post(pair, None));
    Extend(run, states, step, Next(sys, step));
    states := states + [Next(sys, step)];
    run := run + [step];
    assert states[|run|].db.open == map[2 := Draft(2, EventOf(Post(pair, None)))];
    run, states := CommitOne(run, states, 2, 2);
    assert states[|run|].recorded == [{1}, {2}] && states[|run|].db.open == map[];
  }

  lemma FirstDone(pair: (int, string), key: string) returns (run: seq<Step>, states: seq<Sys>)
    requires Trim(pair.1) != ""
    ensures Extends(run, states)
    ensures var sys := states[|run|];
            && sys.db.outbox == map[1 := EventOf(Post(pair, Some(key))).(dispatchedAt := Some(2))] && sys.db.open == map[]
            && sys.db.jobs == map[] && sys.db.nextJobId == 2 && sys.db.nextEventId == 2 && sys.db.clock == 2
            && PairMarker(sys.db, pair) == Marker(0, Some(1)) && sys.recorded == [{1}]
  {
    run, states := FirstRecorded(pair, key);
    run, states := SendNext(run, states, 1, pair, Some(key));
    assert states[|run|].db.jobs == map[1 := Queued(pair, Some(key), Marker(0, None))];
    assert Unblocked(states[|run|].db, 1);
    run, states := Finish(run, states, 1);
    assert states[|run|].db.jobs == map[];
  }

  lemma FirstRecorded(pair: (int, string), key: string) returns (run: seq<Step>, states: seq<Sys>)
    ensures Extends(run, states)
    ensures states[|run|] == Sys(
              EmptyTables().(nextEventId := 2, outbox := map[1 := EventOf(Post(pair, Some(key)))]), {}, [], [{1}], [])
  {
    var s0 := Sys(EmptyTables(), {}, [], [], []);
    var step := Record(1, Post(pair, Some(key)));
    Extend([], [s0], step, Next(s0, step));
    run, states := [] + [step], [s0] + [Next(s0, step)];
    assert states[|run|].db.open == map[1 := Draft(1, EventOf(Post(pair, Some(key))))];
    run, states := CommitOne(run, states, 1, 1);
    assert states[|run|].db.open == map[] && states[|run|].recorded == [{1}];
  }

  /** Recording the first event again puts it back in line under its old id, ahead of the second. */
  lemma RecordedAgain(pair: (int, string), key: string) returns (run: seq<Step>, states: seq<Sys>)
    requires Trim(pair.1) != ""
    ensures Extends(run, states)
    ensures var sys, old', new' := states[|run|], EventOf(Post(pair, Some(key))), EventOf(Post(pair, None));
            && sys.db.outbox == map[1 := old', 2 := new'] && sys.db.open == map[]
            && sys.db.jobs == map[] && sys.db.nextJobId == 2 && sys.db.clock == 2
            && PairMarker(sys.db, pair) == Marker(0, Some(1)) && sys.recorded == [{1}, {2}, {1}]
  {
    run, states := FirstDoneSecondWaiting(pair, key);
    var sys := states[|run|];
    var spec := Post(pair, Some(key));
    assert HasEventKey(sys.db.outbox, 1, DELIVERY_KIND, key);
    assert EventHolder(sys.db.outbox, DELIVERY_KIND, Some(key)) == Some(1);
    var step := Record(3, spec);
    Extend(run, states, step, Next(sys, step));
    states := states + [Next(sys, step)];
    run := run + [step];
    assert states[|run|].db.open == map[1 := Draft(3, EventOf(spec))];
    run, states := CommitOne(run, states, 3, 1);
    assert states[|run|].db.open == map[] && states[|run|].recorded == [{1}, {2}, {1}];
  }

  lemma RecordedTwice(recorded: seq<set<int>>)
    requires recorded == [{1}, {2}, {1}]
    ensures Recording(recorded, 1) == 2 && Recording(recorded, 2) == 1
  {
    assert recorded[..2][..1] == [{1}] && recorded[..2] == [{1}, {2}];
  }

  lemma SendBothAgain(pair: (int, string), key: string) returns (run: seq<Step>, states: seq<Sys>, x: Sent, y: Sent)
    requires Trim(pair.1) != ""
    ensures Extends(run, states) && BothSent(states[|run|], pair, 2, x, y)
    ensures Earlier(y.recording, y.event, x.recording, x.event)
  {
    hide Takes, Recording, Trim;
    run, states := RecordedAgain(pair, key);
    RecordedTwice(states[|run|].recorded);
    assert Selectable(states[|run|].db, 1);
    var sent := states[|run|].sent;
    run, states := SendNext(run, states, 1, pair, Some(key));
    assert Selectable(states[|run|].db, 2);
    run, states := SendNext(run, states, 2, pair, None);
    x, y := states[|run|].sent[|sent|], states[|run|].sent[|sent| + 1];
  }

  /** Recording order fails when a sent event is recorded again while a later one is waiting. */
  lemma RerecordingRun(pair: (int, string), key: string) returns (run: seq<Step>, states: seq<Sys>, x: Sent, y: Sent)
    requires Trim(pair.1) != ""
    ensures WellFormed(EmptyTables()) && IsRun(EmptyTables(), run, states)
    ensures var sys := states[|run|];
            && x in sys.sent && y in sys.sent && x.pair == Some(pair) && y.pair == Some(pair)
            && FinishedBefore(sys.settled, x.job, y.job)
            && Earlier(y.recording, y.event, x.recording, x.event)
  {
    run, states, x, y := SendBothAgain(pair, key);
    run, states := FinishBoth(run, states, pair, 2, x, y);
  }
}
