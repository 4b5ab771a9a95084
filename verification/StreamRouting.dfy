/** Which events belong to a timeline subscription, stream by stream, in the facts a status carries. */
module StreamRouting {
  import opened Wrappers
  import opened Decimal
  import opened StreamLog
  import opened StreamReplay

  /** The status, in this version, is shown on the stream. */
  predicate Fits(stream: StreamName, parameter: string, account: int, s: Snapshot) {
    match stream
    case Public => s.isPublic
    case PublicMedia => s.isPublic && s.hadMedia
    case PublicLocal => s.isPublic && s.local
    case PublicLocalMedia => s.isPublic && s.local && s.hadMedia
    case PublicRemote => s.isPublic && !s.local
    case PublicRemoteMedia => s.isPublic && !s.local && s.hadMedia
    case Hashtag => s.hashtag && parameter in s.tags
    case HashtagLocal => s.hashtag && parameter in s.tags && s.local
    case ListStream => (account, ListId(parameter)) in s.lists
    case User | UserNotification | Direct => false
  }

  predicate Shown(q: Query, version: Option<Snapshot>) {
    version.Some? && Fits(q.stream, q.parameter, q.account, version.value)
  }

  /** The event concerns everybody and a status that is, or was, on the stream. */
  predicate Routed(q: Query, e: StreamEvent) {
    e.payload.accountId == 0 && (Shown(q, e.payload.before) || Shown(q, e.payload.after))
  }

  lemma RoutesAgree(q: Query, e: StreamEvent)
    ensures RouteMatches(q, e.payload.before) <==> Shown(q, e.payload.before)
    ensures RouteMatches(q, e.payload.after) <==> Shown(q, e.payload.after)
    ensures Matches(q, e) <==> Routed(q, e)
  {
  }

  /** A list id is read as it prints; whatever does not fit 64 bits or is no number reads as zero. */
  lemma ListIdReads(n: int)
    ensures ListId(Print(n)) == if -0x8000_0000_0000_0000 <= n < 0x8000_0000_0000_0000 then n else 0
    ensures n >= 0 ==> ListId("+" + Print(n)) == ListId(Print(n))
  {
    if n < 0 {
      assert Print(n)[1..] == PrintNat(-n);
    } else {
      assert ("+" + Print(n))[1..] == Print(n);
    }
  }

  lemma ListIdRejects(text: string, i: nat)
    requires i < |text| && !IsDigit(text[i]) && (i > 0 || (text[i] != '+' && text[i] != '-'))
    ensures ListId(text) == 0
  {
    if text[0] == '-' || text[0] == '+' { assert text[1..][i - 1] == text[i]; }
  }

  // ------------------------------------------------------------------ replay

  predicate OldDelete(q: Query, e: StreamEvent) {
    e.id <= q.through && e.id <= q.createAfter && Routed(q, e) && e.payload.event == "delete"
  }

  /** An older change of a status that was on the stream before it, and neither created nor deleted it. */
  predicate OldEdit(q: Query, e: StreamEvent) {
    && e.id <= q.through && e.id <= q.createAfter && e.payload.accountId == 0 && Shown(q, e.payload.before)
    && e.payload.event != "update" && e.payload.event != "delete"
  }

  function DeletesAfter(rows: map<int, StreamEvent>, q: Query, id: int): set<int> {
    set i | i in rows && id < i && OldDelete(q, rows[i])
  }

  function EditsAfter(rows: map<int, StreamEvent>, q: Query, id: int): set<int> {
    set i | i in rows && id < i && OldEdit(q, rows[i])
  }

  /** The visible event is part of the replay: it is newer than `createAfter`, or among the last 128
      older deletes, or among the last 128 older edits. */
  predicate InReplay(rows: map<int, StreamEvent>, q: Query, e: StreamEvent) {
    && e.id in rows && rows[e.id] == e
    && e.id <= q.through
    && Routed(q, e)
    && (|| q.createAfter < e.id
        || (OldDelete(q, e) && |DeletesAfter(rows, q, e.id)| < 128)
        || (OldEdit(q, e) && |EditsAfter(rows, q, e.id)| < 128))
  }

  /** `log` lists the visible rows in id order. */
  ghost predicate Lists(rows: map<int, StreamEvent>, log: seq<StreamEvent>) {
    && Increasing(log)
    && forall e: StreamEvent :: e in log <==> e.id in rows && rows[e.id] == e
  }

  function NewerIds(log: seq<StreamEvent>, q: Query, c: Class, id: int): set<int> {
    set e | e in log && In(q, c, e) && id < e.id :: e.id
  }

  lemma {:induction false} CountsIds(log: seq<StreamEvent>, q: Query, c: Class, id: int)
    requires Increasing(log)
    ensures CountNewer(log, q, c, id) == |NewerIds(log, q, c, id)|
    decreases |log|
  {
    if log == [] {
      assert NewerIds(log, q, c, id) == {};
    } else {
      hide In, NewerIds, CountNewer;
      var front, last := log[..|log| - 1], log[|log| - 1];
      FrontIsOlder(log);
      CountsIds(front, q, c, id);
      CountsPush(front, last, q, c, id);
      assert front + [last] == log;
    }
  }

  lemma CountsPush(front: seq<StreamEvent>, last: StreamEvent, q: Query, c: Class, id: int)
    requires forall e :: e in front ==> e.id < last.id
    requires CountNewer(front, q, c, id) == |NewerIds(front, q, c, id)|
    ensures CountNewer(front + [last], q, c, id) == |NewerIds(front + [last], q, c, id)|
  {
    NewerPush(front, last, q, c, id);
    CountPush(front, last, q, c, id);
    hide In, NewerIds, CountNewer;
  }

  lemma NewerPush(front: seq<StreamEvent>, last: StreamEvent, q: Query, c: Class, id: int)
    ensures NewerIds(front + [last], q, c, id) ==
              NewerIds(front, q, c, id) + if In(q, c, last) && id < last.id then {last.id} else {}
    ensures (forall e :: e in front ==> e.id < last.id) ==> last.id !in NewerIds(front, q, c, id)
  {
    hide In;
    var log := front + [last];
    forall e ensures e in log <==> e in front || e == last { if e == last { assert log[|front|] == e; } }
  }

  lemma ClassesAgree(q: Query, e: StreamEvent)
    ensures In(q, Fresh, e) <==> e.id <= q.through && q.createAfter < e.id && Routed(q, e)
    ensures In(q, Deletes, e) <==> OldDelete(q, e)
    ensures In(q, Transitions, e) <==> OldEdit(q, e)
  {
    RoutesAgree(q, e);
  }

  lemma CountsAgree(rows: map<int, StreamEvent>, log: seq<StreamEvent>, q: Query, id: int)
    requires Lists(rows, log) && forall i :: i in rows ==> rows[i].id == i
    ensures CountNewer(log, q, Deletes, id) == |DeletesAfter(rows, q, id)|
    ensures CountNewer(log, q, Transitions, id) == |EditsAfter(rows, q, id)|
  {
    hide In, OldDelete, OldEdit;
    CountsIds(log, q, Deletes, id);
    CountsIds(log, q, Transitions, id);
    forall e { ClassesAgree(q, e); }
    assert forall i :: i in rows ==> rows[i] in log;
    assert NewerIds(log, q, Deletes, id) == DeletesAfter(rows, q, id);
    assert NewerIds(log, q, Transitions, id) == EditsAfter(rows, q, id);
  }

  /** The replay of the visible rows holds exactly the events that belong to it. */
  lemma ReplayHolds(rows: map<int, StreamEvent>, log: seq<StreamEvent>, q: Query, e: StreamEvent)
    requires Lists(rows, log) && forall i :: i in rows ==> rows[i].id == i
    ensures e in Replay(log, q) <==> InReplay(rows, q, e)
  {
    hide In, OldDelete, OldEdit, Routed;
    ReplayMembers(log, q, e);
    ClassesAgree(q, e);
    CountsAgree(rows, log, q, e.id);
    OldIsRouted(q, e);
  }

  lemma OldIsRouted(q: Query, e: StreamEvent)
    ensures OldDelete(q, e) || OldEdit(q, e) ==> Routed(q, e) && e.id <= q.through
  {
  }
}
