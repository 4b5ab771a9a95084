/** Bounded replay for a new timeline subscription (src/jobs.rs, src/streaming.rs). */
module StreamReplay {
  import opened Wrappers
  import opened Sets
  import opened Decimal
  import opened StreamLog

  const TRANSITION_EVENTS: nat := 128

  datatype StreamName =
    | User
    | UserNotification
    | Direct
    | Public
    | PublicMedia
    | PublicLocal
    | PublicLocalMedia
    | PublicRemote
    | PublicRemoteMedia
    | Hashtag
    | HashtagLocal
    | ListStream
  {
    predicate IsTimeline() { !User? && !UserNotification? && !Direct? }
    predicate Local() { PublicLocal? || PublicLocalMedia? || HashtagLocal? }
    predicate Remote() { PublicRemote? || PublicRemoteMedia? }
    predicate Media() { PublicMedia? || PublicLocalMedia? || PublicRemoteMedia? }
  }

  datatype Query = Query(through: int, createAfter: int, stream: StreamName, parameter: string, account: int)

  datatype ReplayError = InvalidInput

  /** `str::parse::<i64>`, with zero for whatever it rejects. */
  function ListId(text: string): int {
    var signed := text != "" && (text[0] == '-' || text[0] == '+');
    var digits := if signed then text[1..] else text;
    if digits == "" || !AllDigits(digits) then 0
    else
      var magnitude: int := ParseNat(digits);
      var value := if signed && text[0] == '-' then -magnitude else magnitude;
      if -0x8000_0000_0000_0000 <= value < 0x8000_0000_0000_0000 then value else 0
  }

  predicate RouteMatches(q: Query, snapshot: Option<Snapshot>) {
    snapshot.Some? &&
    var s := snapshot.value;
    match q.stream
    case Hashtag | HashtagLocal => s.hashtag && (q.stream.Local() ==> s.local) && q.parameter in s.tags
    case ListStream => (q.account, ListId(q.parameter)) in s.lists
    case User | UserNotification | Direct => false
    case _ =>
      && s.isPublic
      && (q.stream.Local() ==> s.local)
      && (q.stream.Remote() ==> !s.local)
      && (q.stream.Media() ==> s.hadMedia)
  }

  predicate Matches(q: Query, e: StreamEvent) {
    && e.payload.accountId == 0
    && (RouteMatches(q, e.payload.before) || RouteMatches(q, e.payload.after))
  }

  datatype Class = Candidates | Fresh | Deletes | Transitions

  /** The event classes the replay query selects from. */
  predicate In(q: Query, c: Class, e: StreamEvent) {
    && e.id <= q.through
    && Matches(q, e)
    && match c
       case Candidates => true
       case Fresh => e.id > q.createAfter
       case Deletes => e.id <= q.createAfter && e.payload.event == "delete"
       case Transitions =>
         && e.id <= q.createAfter
         && e.payload.event != "update" && e.payload.event != "delete"
         && (RouteMatches(q, e.payload.before) || !RouteMatches(q, e.payload.after))
  }

  function Select(log: seq<StreamEvent>, q: Query, c: Class): seq<StreamEvent>
    decreases |log|
  {
    if log == [] then []
    else
      var front, last := log[..|log| - 1], log[|log| - 1];
      if In(q, c, last) then Select(front, q, c) + [last] else Select(front, q, c)
  }

  /** The newest `n` of a class: descending by id with a limit, put back in order. */
  function Newest(log: seq<StreamEvent>, q: Query, c: Class, n: nat): seq<StreamEvent>
    decreases |log|
  {
    if log == [] || n == 0 then []
    else
      var front, last := log[..|log| - 1], log[|log| - 1];
      if In(q, c, last) then Newest(front, q, c, n - 1) + [last] else Newest(front, q, c, n)
  }

  function KeepIds(log: seq<StreamEvent>, ids: set<int>): seq<StreamEvent>
    decreases |log|
  {
    if log == [] then []
    else
      var front, last := log[..|log| - 1], log[|log| - 1];
      if last.id in ids then KeepIds(front, ids) + [last] else KeepIds(front, ids)
  }

  function SelectedIds(log: seq<StreamEvent>, q: Query): set<int> {
    Members(Ids(Select(log, q, Fresh)))
    + Members(Ids(Newest(log, q, Deletes, TRANSITION_EVENTS)))
    + Members(Ids(Newest(log, q, Transitions, TRANSITION_EVENTS)))
  }

  /** `log` lists the visible rows in id order. */
  function Replay(log: seq<StreamEvent>, q: Query): seq<StreamEvent> {
    KeepIds(log, SelectedIds(log, q))
  }

  function ReplayForSubscription(log: seq<StreamEvent>, q: Query): Result<seq<StreamEvent>, ReplayError> {
    if q.through < 0 || q.createAfter < 0 || q.account <= 0 || !q.stream.IsTimeline() then Err(InvalidInput)
    else Ok(Replay(log, q))
  }

  // -------------------------------------------------------------- membership

  ghost predicate Increasing(log: seq<StreamEvent>) {
    forall i, j :: 0 <= i < j < |log| ==> log[i].id < log[j].id
  }

  /** How many events of a class come after `id`. */
  function CountNewer(log: seq<StreamEvent>, q: Query, c: Class, id: int): nat
    decreases |log|
  {
    if log == [] then 0
    else
      var last := log[|log| - 1];
      CountNewer(log[..|log| - 1], q, c, id) + if In(q, c, last) && last.id > id then 1 else 0
  }

  lemma FrontIsOlder(log: seq<StreamEvent>)
    requires Increasing(log) && log != []
    ensures forall e :: e in log[..|log| - 1] ==> e.id < log[|log| - 1].id
  {
    var front, last := log[..|log| - 1], log[|log| - 1];
    forall e | e in front ensures e.id < last.id {
      var i :| 0 <= i < |front| && front[i] == e;
      assert log[i].id < log[|front|].id;
    }
  }

  lemma {:induction false} SelectMembers(log: seq<StreamEvent>, q: Query, c: Class)
    ensures forall e :: e in Select(log, q, c) <==> e in log && In(q, c, e)
    ensures Increasing(log) ==> Increasing(Select(log, q, c))
    decreases |log|
  {
    hide In;
    if log != [] {
      var front, last := log[..|log| - 1], log[|log| - 1];
      assert log == front + [last];
      SelectMembers(front, q, c);
      if Increasing(log) { FrontIsOlder(log); }
    }
  }

  lemma {:induction false} NoneNewer(log: seq<StreamEvent>, q: Query, c: Class, id: int)
    requires forall e :: e in log ==> e.id <= id
    ensures CountNewer(log, q, c, id) == 0
    decreases |log|
  {
    if log != [] {
      assert log[|log| - 1] in log;
      NoneNewer(log[..|log| - 1], q, c, id);
    }
  }

  lemma {:induction false} NewestMembers(log: seq<StreamEvent>, q: Query, c: Class, n: nat)
    requires Increasing(log)
    ensures |Newest(log, q, c, n)| <= n
    ensures forall e :: e in Newest(log, q, c, n) <==> e in log && In(q, c, e) && CountNewer(log, q, c, e.id) < n
    decreases |log|
  {
    if log != [] && n > 0 {
      hide In;
      var front, last := log[..|log| - 1], log[|log| - 1];
      FrontIsOlder(log);
      NewestMembers(front, q, c, if In(q, c, last) then n - 1 else n);
      NoneNewer(front, q, c, last.id);
      NewestPush(front, last, q, c, n);
      assert front + [last] == log;
    }
  }

  lemma NewestPush(front: seq<StreamEvent>, last: StreamEvent, q: Query, c: Class, n: nat)
    requires n > 0 && (forall e :: e in front ==> e.id < last.id) && CountNewer(front, q, c, last.id) == 0
    requires var m := if In(q, c, last) then n - 1 else n;
             && |Newest(front, q, c, m)| <= m
             && forall e :: e in Newest(front, q, c, m) <==> e in front && In(q, c, e) && CountNewer(front, q, c, e.id) < m
    ensures |Newest(front + [last], q, c, n)| <= n
    ensures forall e :: e in Newest(front + [last], q, c, n) <==>
              e in front + [last] && In(q, c, e) && CountNewer(front + [last], q, c, e.id) < n
  {
    hide In;
    var log, m := front + [last], if In(q, c, last) then n - 1 else n;
    assert log[..|log| - 1] == front;
    assert Newest(log, q, c, n) == Newest(front, q, c, m) + if In(q, c, last) then [last] else [];
    hide Newest;
    forall e ensures e in Newest(log, q, c, n) <==> e in log && In(q, c, e) && CountNewer(log, q, c, e.id) < n {
      CountPush(front, last, q, c, e.id);
    }
  }

  lemma {:induction false} KeepIdsMembers(log: seq<StreamEvent>, ids: set<int>)
    ensures forall e :: e in KeepIds(log, ids) <==> e in log && e.id in ids
    ensures Increasing(log) ==> Increasing(KeepIds(log, ids))
    decreases |log|
  {
    if log != [] {
      var front, last := log[..|log| - 1], log[|log| - 1];
      assert log == front + [last];
      KeepIdsMembers(front, ids);
      if Increasing(log) { FrontIsOlder(log); }
    }
  }

  predicate Reserved(log: seq<StreamEvent>, q: Query, c: Class, e: StreamEvent) {
    In(q, c, e) && CountNewer(log, q, c, e.id) < TRANSITION_EVENTS
  }

  lemma MemberIds(events: seq<StreamEvent>, id: int)
    ensures id in Members(Ids(events)) <==> exists e :: e in events && e.id == id
  {
    if id in Members(Ids(events)) {
      var i :| 0 <= i < |events| && Ids(events)[i] == id;
      assert events[i] in events;
    }
    if e :| e in events && e.id == id {
      var i :| 0 <= i < |events| && events[i] == e;
      assert Ids(events)[i] == id;
    }
  }

  lemma IdIdentifies(log: seq<StreamEvent>, a: StreamEvent, b: StreamEvent)
    requires Increasing(log) && a in log && b in log && a.id == b.id
    ensures a == b
  {
    var i :| 0 <= i < |log| && log[i] == a;
    var j :| 0 <= j < |log| && log[j] == b;
  }

  /** Replayed events come in strictly increasing id order. */
  lemma ReplayIsOrdered(log: seq<StreamEvent>, q: Query)
    requires Increasing(log)
    ensures Increasing(Replay(log, q))
  {
    KeepIdsMembers(log, SelectedIds(log, q));
  }

  /** Exactly what a replay holds: every newer event of the subscription, and of the older deletes
      and transitions those with fewer than the limit behind them. */
  lemma ReplayMembers(log: seq<StreamEvent>, q: Query, e: StreamEvent)
    requires Increasing(log)
    ensures e in Replay(log, q) <==>
              e in log && (In(q, Fresh, e) || Reserved(log, q, Deletes, e) || Reserved(log, q, Transitions, e))
  {
    KeepIdsMembers(log, SelectedIds(log, q));
    SelectMembers(log, q, Fresh);
    NewestMembers(log, q, Deletes, TRANSITION_EVENTS);
    NewestMembers(log, q, Transitions, TRANSITION_EVENTS);
    MemberIds(Select(log, q, Fresh), e.id);
    MemberIds(Newest(log, q, Deletes, TRANSITION_EVENTS), e.id);
    MemberIds(Newest(log, q, Transitions, TRANSITION_EVENTS), e.id);
    forall other | e in log && other in log && other.id == e.id ensures other == e { IdIdentifies(log, other, e); }
  }

  // ------------------------------------------------- independence and reserve

  lemma {:induction false} CountOfSelected(log: seq<StreamEvent>, q: Query, c: Class, id: int)
    ensures CountNewer(log, q, c, id) == CountNewer(Select(log, q, c), q, c, id)
    decreases |log|
  {
    if log != [] {
      var front, last := log[..|log| - 1], log[|log| - 1];
      CountOfSelected(front, q, c, id);
      assert log == front + [last];
      CountPush(front, last, q, c, id);
      if In(q, c, last) { CountPush(Select(front, q, c), last, q, c, id); }
    }
  }

  lemma {:induction false} CountPush(log: seq<StreamEvent>, last: StreamEvent, q: Query, c: Class, id: int)
    ensures CountNewer(log + [last], q, c, id) == CountNewer(log, q, c, id) + if In(q, c, last) && last.id > id then 1 else 0
  {
    assert (log + [last])[..|log|] == log;
  }

  /** The class of an event depends on the candidates alone. */
  lemma {:induction false} SelectOfCandidates(log: seq<StreamEvent>, q: Query, c: Class)
    ensures Select(log, q, c) == Select(Select(log, q, Candidates), q, c)
    decreases |log|
  {
    if log != [] {
      var front, last := log[..|log| - 1], log[|log| - 1];
      SelectOfCandidates(front, q, c);
      if In(q, Candidates, last) {
        assert Select(log, q, Candidates)[..|Select(front, q, Candidates)|] == Select(front, q, Candidates);
      }
    }
  }

  /** Two logs that agree on a class reserve the same events of it. */
  lemma SameReserve(a: seq<StreamEvent>, b: seq<StreamEvent>, q: Query, c: Class, e: StreamEvent)
    requires Select(a, q, c) == Select(b, q, c)
    ensures Reserved(a, q, c, e) <==> Reserved(b, q, c, e)
    ensures In(q, c, e) ==> (e in a <==> e in b)
  {
    CountOfSelected(a, q, c, e.id);
    CountOfSelected(b, q, c, e.id);
    SelectMembers(a, q, c);
    SelectMembers(b, q, c);
  }

  lemma FirstIsMember(log: seq<StreamEvent>)
    ensures log == [] || log[0] in log
  {
  }

  /** Increasing logs with the same members are the same. */
  lemma {:induction false} SameMembersSameLog(a: seq<StreamEvent>, b: seq<StreamEvent>)
    requires Increasing(a) && Increasing(b)
    requires forall e :: e in a <==> e in b
    ensures a == b
    decreases |a|
  {
    FirstIsMember(b);
    if a != [] {
      assert a[|a| - 1] in b && b != [];
      var x, y := a[|a| - 1], b[|b| - 1];
      assert y in a && x in b;
      LastIsGreatest(a, y);
      LastIsGreatest(b, x);
      IdIdentifies(a, x, y);
      var p, r := a[..|a| - 1], b[..|b| - 1];
      assert x == y;
      forall e ensures e in p <==> e in r {
        FrontMembers(a);
        FrontMembers(b);
        assert e in a <==> e in b;
      }
      SameMembersSameLog(p, r);
      assert a == p + [x] && b == r + [y];
    }
  }

  lemma LastIsGreatest(log: seq<StreamEvent>, e: StreamEvent)
    requires Increasing(log) && e in log
    ensures e.id <= log[|log| - 1].id
  {
    var i :| 0 <= i < |log| && log[i] == e;
  }

  lemma FrontMembers(log: seq<StreamEvent>)
    requires Increasing(log) && log != []
    ensures forall e :: e in log[..|log| - 1] <==> e in log && e != log[|log| - 1]
  {
    var front, last := log[..|log| - 1], log[|log| - 1];
    assert log == front + [last];
    assert forall i | 0 <= i < |front| :: front[i] == log[i];
  }

  /** Events the subscription does not route change nothing about its replay. */
  lemma ReplayIgnoresOtherTraffic(a: seq<StreamEvent>, b: seq<StreamEvent>, q: Query)
    requires Increasing(a) && Increasing(b)
    requires Select(a, q, Candidates) == Select(b, q, Candidates)
    ensures Replay(a, q) == Replay(b, q)
  {
    ReplayIsOrdered(a, q);
    ReplayIsOrdered(b, q);
    forall e ensures e in Replay(a, q) <==> e in Replay(b, q) {
      ReplayMembers(a, q, e);
      ReplayMembers(b, q, e);
      forall c ensures Select(a, q, c) == Select(b, q, c) {
        SelectOfCandidates(a, q, c);
        SelectOfCandidates(b, q, c);
      }
      SameReserve(a, b, q, Fresh, e);
      SameReserve(a, b, q, Deletes, e);
      SameReserve(a, b, q, Transitions, e);
    }
    SameMembersSameLog(Replay(a, q), Replay(b, q));
  }

  /** However many other events a log gains, the deletes it replays stay the same. */
  lemma EditsNeverDisplaceDeletes(a: seq<StreamEvent>, b: seq<StreamEvent>, q: Query, e: StreamEvent)
    requires Increasing(a) && Increasing(b)
    requires Select(a, q, Deletes) == Select(b, q, Deletes) && In(q, Deletes, e)
    ensures e in Replay(a, q) <==> e in Replay(b, q)
  {
    ReplayMembers(a, q, e);
    ReplayMembers(b, q, e);
    SameReserve(a, b, q, Deletes, e);
  }

  /** The older part of a replay is bounded per class and never creates: beside deletes it holds
      only events of statuses that were in view before, and no `update`. */
  lemma ReplayIsBounded(log: seq<StreamEvent>, q: Query)
    requires Increasing(log)
    ensures |Select(Replay(log, q), q, Deletes)| <= TRANSITION_EVENTS
    ensures |Select(Replay(log, q), q, Transitions)| <= TRANSITION_EVENTS
    ensures forall e | e in Replay(log, q) && e.id <= q.createAfter ::
              || e.payload.event == "delete"
              || (e.payload.event != "update" && RouteMatches(q, e.payload.before))
  {
    forall c | c == Deletes || c == Transitions ensures |Select(Replay(log, q), q, c)| <= TRANSITION_EVENTS {
      var kept := Select(Replay(log, q), q, c);
      var newest := Newest(log, q, c, TRANSITION_EVENTS);
      NewestMembers(log, q, c, TRANSITION_EVENTS);
      SelectMembers(Replay(log, q), q, c);
      ReplayIsOrdered(log, q);
      forall e | e in kept ensures e in newest { ReplayMembers(log, q, e); }
      InjectionSize(kept, newest);
    }
    forall e | e in Replay(log, q) && e.id <= q.createAfter
      ensures e.payload.event == "delete" || (e.payload.event != "update" && RouteMatches(q, e.payload.before))
    {
      ReplayMembers(log, q, e);
    }
  }

  lemma InjectionSize(small: seq<StreamEvent>, large: seq<StreamEvent>)
    requires Increasing(small) && forall e :: e in small ==> e in large
    ensures |small| <= |large|
  {
    AscendingSize(Ids(small));
    forall id | id in Members(Ids(small)) ensures id in Members(Ids(large)) {
      MemberIds(small, id);
      MemberIds(large, id);
    }
    SubsetSize(Members(Ids(small)), Members(Ids(large)));
    MembersBound(Ids(large));
  }

  lemma {:induction false} MembersBound(ids: seq<int>)
    ensures |Members(ids)| <= |ids|
  {
    if ids != [] {
      var front, last := ids[..|ids| - 1], ids[|ids| - 1];
      assert ids == front + [last];
      MembersBound(front);
      assert Members(ids) == Members(front) + {last};
    }
  }

  // ----------------------------------------------------------------- handoff

  /** What the live path forwards of the events read after a cursor: the routed ones. */
  function Forwarded(log: seq<StreamEvent>, q: Query, cursor: int): seq<StreamEvent>
    decreases |log|
  {
    if log == [] then []
    else
      var front, last := log[..|log| - 1], log[|log| - 1];
      if last.id > cursor && Matches(q, last) then Forwarded(front, q, cursor) + [last]
      else Forwarded(front, q, cursor)
  }

  lemma {:induction false} ForwardedMembers(log: seq<StreamEvent>, q: Query, cursor: int)
    ensures forall e :: e in Forwarded(log, q, cursor) <==> e in log && e.id > cursor && Matches(q, e)
    ensures Increasing(log) ==> Increasing(Forwarded(log, q, cursor))
    decreases |log|
  {
    if log != [] {
      var front, last := log[..|log| - 1], log[|log| - 1];
      assert log == front + [last];
      ForwardedMembers(front, q, cursor);
      if Increasing(log) { FrontIsOlder(log); }
    }
  }

  /** What a replay takes up to `through` and what reads find after it fit together. */
  lemma ReplayThenReads(log: seq<StreamEvent>, later: seq<StreamEvent>, q: Query)
    requires Increasing(log + later) && q.createAfter <= q.through
    requires forall e :: e in later ==> e.id > q.through
    ensures Select(Replay(log, q), q, Fresh) + Forwarded(log + later, q, q.through)
            == Forwarded(log + later, q, q.createAfter)
  {
    var all := log + later;
    assert forall i | 0 <= i < |log| :: log[i] == all[i];
    var replayed, live := Select(Replay(log, q), q, Fresh), Forwarded(all, q, q.through);
    ReplayIsOrdered(log, q);
    SelectMembers(Replay(log, q), q, Fresh);
    ForwardedMembers(all, q, q.through);
    ForwardedMembers(all, q, q.createAfter);
    forall e ensures e in replayed + live <==> e in Forwarded(all, q, q.createAfter) {
      ReplayMembers(log, q, e);
    }
    Joined(replayed, live, q.through);
    SameMembersSameLog(replayed + live, Forwarded(all, q, q.createAfter));
  }

  /** Rows beyond `through` do not matter to a replay. */
  lemma {:induction false} SelectIgnoresLater(log: seq<StreamEvent>, later: seq<StreamEvent>, q: Query, c: Class)
    requires forall e :: e in later ==> e.id > q.through
    ensures Select(log + later, q, c) == Select(log, q, c)
    decreases |later|
  {
    if later == [] {
      assert log + later == log;
    } else {
      var front, last := later[..|later| - 1], later[|later| - 1];
      assert (log + later)[..|log + later| - 1] == log + front;
      assert last in later;
      SelectIgnoresLater(log, front, q, c);
    }
  }

  lemma {:induction false} ForwardedSplits(a: seq<StreamEvent>, b: seq<StreamEvent>, q: Query, cursor: int)
    ensures Forwarded(a + b, q, cursor) == Forwarded(a, q, cursor) + Forwarded(b, q, cursor)
    decreases |b|
  {
    if b == [] {
      assert a + b == a;
    } else {
      var front := b[..|b| - 1];
      assert (a + b)[..|a + b| - 1] == a + front;
      ForwardedSplits(a, front, q, cursor);
    }
  }

  lemma {:induction false} NoneForwarded(log: seq<StreamEvent>, q: Query, cursor: int)
    requires forall e :: e in log ==> e.id <= cursor
    ensures Forwarded(log, q, cursor) == []
    decreases |log|
  {
    if log != [] {
      assert log[|log| - 1] in log;
      NoneForwarded(log[..|log| - 1], q, cursor);
    }
  }

  lemma Joined(a: seq<StreamEvent>, b: seq<StreamEvent>, pivot: int)
    requires Increasing(a) && Increasing(b)
    requires (forall e :: e in a ==> e.id <= pivot) && (forall e :: e in b ==> e.id > pivot)
    ensures Increasing(a + b)
  {
    forall i, j | 0 <= i < j < |a + b| ensures (a + b)[i].id < (a + b)[j].id {
      if i < |a| { assert a[i] in a; }
      if j >= |a| { assert b[j - |a|] in b; }
    }
  }
}
