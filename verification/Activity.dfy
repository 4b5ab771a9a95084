/** Daily activity buckets: recorded, renewed, cleared, pruned in chunks and reported
    (src/activity.rs). Instants are microseconds since the epoch. */
module Activity {
  import opened Sets

  const SECOND := 1_000_000
  const DAY := 86_400 * SECOND
  const RETENTION := 15_778_476 * SECOND
  const PRUNED_BUCKETS := 100
  const PRUNED_MEMBERS := 1000

  function DayOf(instant: int): int { instant / DAY }

  /** A membership row: on this day, this user. */
  type Row = (int, int)

  /** The distinct users recorded on the days `from` up to `to`, exclusive. */
  function ActiveUsers(rows: set<Row>, from: int, to: int): set<int> {
    set row | row in rows && from <= row.0 < to :: row.1
  }

  function Users(rows: set<Row>, day: int): set<int> {
    set row | row in rows && row.0 == day :: row.1
  }

  function OtherDays(rows: set<Row>, day: int): set<Row> {
    set row | row in rows && row.0 != day
  }

  function Expired(buckets: map<int, int>, clock: int): set<int> {
    set day | day in buckets && buckets[day] <= clock
  }

  predicate Before(buckets: map<int, int>, x: int, y: int) {
    x in buckets && y in buckets && (buckets[x] < buckets[y] || (buckets[x] == buckets[y] && x <= y))
  }

  ghost predicate IsFirst(buckets: map<int, int>, days: set<int>, x: int)
    requires days <= buckets.Keys
  {
    x in days && forall y :: y in days ==> Before(buckets, x, y)
  }

  lemma {:induction false} FirstExists(buckets: map<int, int>, days: set<int>)
    requires days != {} && days <= buckets.Keys
    ensures exists x :: IsFirst(buckets, days, x)
    decreases |days|
  {
    Inhabited(days);
    var x :| x in days;
    var rest := days - {x};
    assert days == rest + {x};
    if rest == {} {
      assert IsFirst(buckets, days, x);
    } else {
      FirstExists(buckets, rest);
      var y :| IsFirst(buckets, rest, y);
      assert IsFirst(buckets, days, if Before(buckets, x, y) then x else y);
    }
  }

  // --------------------------------------------------------------- invariant

  /** No bucket expires before its day could have left every report. */
  ghost predicate ExpiryOk(buckets: map<int, int>) {
    forall day :: day in buckets ==> buckets[day] >= day * DAY + RETENTION
  }

  ghost predicate RowsOk(buckets: map<int, int>, members: set<Row>, history: set<Row>) {
    forall row :: row in members ==> row in history && row.0 in buckets
  }

  /** Until that moment a day's rows are exactly what was recorded. */
  ghost predicate Exact(members: set<Row>, history: set<Row>, clock: int) {
    forall row :: row in history && clock < row.0 * DAY + RETENTION ==> row in members
  }

  lemma WindowIsExact(members: set<Row>, history: set<Row>, clock: int, now: int, from: int)
    requires Exact(members, history, clock) && forall row :: row in members ==> row in history
    requires clock < from * DAY + RETENTION
    ensures ActiveUsers(members, from, DayOf(now)) == ActiveUsers(history, from, DayOf(now))
  {
    forall user | user in ActiveUsers(history, from, DayOf(now)) ensures user in ActiveUsers(members, from, DayOf(now)) {
      var row :| row in history && from <= row.0 < DayOf(now) && row.1 == user;
      assert row in members;
    }
  }

  /** Rows of unexpired buckets in a span of days. */
  function Joined(buckets: map<int, int>, members: set<Row>, now: int, from: int, to: int): set<Row> {
    set row | row in members && row.0 in buckets && from <= row.0 < to && buckets[row.0] > now
  }

  function Reported(buckets: map<int, int>, members: set<Row>, now: int, days: int): set<int> {
    ActiveUsers(Joined(buckets, members, now, DayOf(now) - days, DayOf(now)), DayOf(now) - days, DayOf(now))
  }

  /** The tables are read before the first bucket of the report's window can have expired. */
  predicate Timely(clock: int, now: int, days: int) {
    clock < (DayOf(now) - days) * DAY + RETENTION
  }

  /** A timely report is the distinct count of everything recorded in its window. */
  lemma ReportIsExact(
    buckets: map<int, int>, members: set<Row>, history: set<Row>, clock: int, now: int, days: int)
    requires ExpiryOk(buckets) && RowsOk(buckets, members, history) && Exact(members, history, clock)
    requires Timely(clock, now, days) && 0 <= days <= 168
    ensures Reported(buckets, members, now, days) == ActiveUsers(history, DayOf(now) - days, DayOf(now))
  {
    var today := DayOf(now);
    WindowIsExact(members, history, clock, now, today - days);
    assert now < (today + 1) * DAY;
    forall row | row in members && today - days <= row.0 < today
      ensures row in Joined(buckets, members, now, today - days, today)
    {
      assert buckets[row.0] >= row.0 * DAY + RETENTION;
    }
    assert Reported(buckets, members, now, days) == ActiveUsers(members, today - days, today);
  }

  class Buckets {
    var buckets: map<int, int>
    var members: set<Row>
    var clock: int
    /** Every recording there ever was. */
    ghost var history: set<Row>

    ghost predicate Valid()
      reads this
    {
      ExpiryOk(buckets) && RowsOk(buckets, members, history) && Exact(members, history, clock)
    }

    constructor (now: int)
      ensures Valid() && clock == now && buckets == map[] && members == {} && history == {}
    {
      buckets, members, clock, history := map[], {}, now, {};
    }

    /** One recording. `now` was read before the bucket lock was waited for, `writeTime` after. */
    method RecordMember(user: int, now: int, writeTime: int)
      requires Valid() && clock <= writeTime && now <= writeTime
      modifies this
      ensures Valid() && clock == writeTime
      ensures history == old(history) + {(DayOf(now), user)}
      ensures buckets == old(buckets)[DayOf(now) := writeTime + RETENTION]
      ensures (DayOf(now), user) in members
      ensures members == (if DayOf(now) in old(buckets) && old(buckets)[DayOf(now)] <= writeTime
                          then OtherDays(old(members), DayOf(now)) else old(members)) + {(DayOf(now), user)}
    {
      var day := DayOf(now);
      assert day * DAY <= now;
      if day !in buckets { buckets := buckets[day := now + RETENTION]; }
      var previousExpiry := buckets[day];
      if previousExpiry <= writeTime {
        members := OtherDays(members, day);
      }
      buckets := buckets[day := writeTime + RETENTION];
      members := members + {(day, user)};
      history := history + {(day, user)};
      clock := writeTime;
    }

    method Tick(now: int)
      requires Valid() && clock <= now
      modifies this`clock
      ensures Valid() && clock == now
    {
      clock := now;
    }

    /** The counts of a report asked for at `now`: distinct users over 28 and 168 whole days. Neither
        renewals, nor clearings, nor half-finished prunes show in it. */
    method Aggregate(now: int) returns (activeMonth: nat, activeHalfyear: nat)
      requires Valid()
      ensures activeMonth == |Reported(buckets, members, now, 28)|
      ensures activeHalfyear == |Reported(buckets, members, now, 168)|
      // In the tables' own terms: a user counts who has a row on one of the whole days before today, in
      // a bucket that has not expired.
      ensures activeMonth == |set row | row in members && row.0 in buckets && now < buckets[row.0]
                                        && DayOf(now) - 28 <= row.0 < DayOf(now) :: row.1|
      ensures activeHalfyear == |set row | row in members && row.0 in buckets && now < buckets[row.0]
                                           && DayOf(now) - 168 <= row.0 < DayOf(now) :: row.1|
      ensures Timely(clock, now, 28) ==> activeMonth == |ActiveUsers(history, DayOf(now) - 28, DayOf(now))|
      ensures Timely(clock, now, 168) ==> activeHalfyear == |ActiveUsers(history, DayOf(now) - 168, DayOf(now))|
    {
      var today := DayOf(now);
      var month, halfyear := today - 28, today - 168;
      var joined := Joined(buckets, members, now, halfyear, today);
      activeMonth := |set row | row in joined && row.0 >= month :: row.1|;
      activeHalfyear := |set row | row in joined :: row.1|;
      assert (set row | row in joined && row.0 >= month :: row.1) ==
             set row | row in members && row.0 in buckets && now < buckets[row.0] && month <= row.0 < today :: row.1;
      assert (set row | row in joined :: row.1) ==
             set row | row in members && row.0 in buckets && now < buckets[row.0] && halfyear <= row.0 < today :: row.1;
      assert (set row | row in joined && row.0 >= month :: row.1) == Reported(buckets, members, now, 28);
      assert (set row | row in joined :: row.1) == Reported(buckets, members, now, 168);
      if Timely(clock, now, 28) { ReportIsExact(buckets, members, history, clock, now, 28); }
      if Timely(clock, now, 168) { ReportIsExact(buckets, members, history, clock, now, 168); }
    }

    // ------------------------------------------------------------- cleanup

    /** The first expired buckets by expiry and day, a bounded number of them. */
    method OldestExpired() returns (days: seq<int>)
      ensures forall i :: 0 <= i < |days| ==> days[i] in Expired(buckets, clock)
      ensures forall i, j :: 0 <= i < j < |days| ==> days[i] != days[j] && Before(buckets, days[i], days[j])
      ensures |days| <= PRUNED_BUCKETS
      ensures forall day :: day in Expired(buckets, clock) && day !in days ==>
                |days| == PRUNED_BUCKETS && forall i :: 0 <= i < |days| ==> Before(buckets, days[i], day)
      // In the bucket's own terms: expired by now, in the order of expiry and then of days, a hundred of
      // them unless there are fewer.
      ensures forall i :: 0 <= i < |days| ==> days[i] in buckets && buckets[days[i]] <= clock
      ensures forall i, j :: 0 <= i < j < |days| ==>
                buckets[days[i]] < buckets[days[j]] || (buckets[days[i]] == buckets[days[j]] && days[i] < days[j])
      ensures forall day :: day in buckets && buckets[day] <= clock && day !in days ==>
                |days| == 100 && forall i :: 0 <= i < |days| ==>
                  buckets[days[i]] < buckets[day] || (buckets[days[i]] == buckets[day] && days[i] < day)
      ensures |Expired(buckets, clock)| <= PRUNED_BUCKETS ==>
                forall day :: day in Expired(buckets, clock) ==> day in days
    {
      days := [];
      var rest := Expired(buckets, clock);
      while |days| < PRUNED_BUCKETS && rest != {}
        invariant rest <= Expired(buckets, clock)
        invariant forall i :: 0 <= i < |days| ==> days[i] in Expired(buckets, clock) && days[i] !in rest
        invariant forall day :: day in Expired(buckets, clock) ==> day in rest || day in days
        invariant forall i, j :: 0 <= i < j < |days| ==> days[i] != days[j] && Before(buckets, days[i], days[j])
        invariant forall i, y :: 0 <= i < |days| && y in rest ==> Before(buckets, days[i], y)
        invariant |days| <= PRUNED_BUCKETS && |days| + |rest| == |Expired(buckets, clock)|
      {
        FirstExists(buckets, rest);
        ghost var first :| IsFirst(buckets, rest, first);
        var day :| day in rest && forall y :: y in rest ==> Before(buckets, day, y);
        days := days + [day];
        rest := rest - {day};
      }
      assert |days| == |Expired(buckets, clock)| ==> rest == {};
    }

    /** Deletes a day's rows, smallest users first, at most `limit` of them. */
    method DeleteMembers(day: int, limit: nat) returns (removed: nat)
      modifies this`members
      ensures members <= old(members)
      ensures removed == |old(members)| - |members| <= limit
      ensures removed < limit ==> Users(members, day) == {}
      ensures forall row :: row in old(members) && row !in members ==>
                row.0 == day && forall kept :: kept in Users(members, day) ==> row.1 < kept
    {
      removed := 0;
      var rest := Users(members, day);
      while removed < limit && rest != {}
        invariant rest == Users(members, day)
        invariant members <= old(members) && removed == |old(members)| - |members| <= limit
        invariant forall row :: row in old(members) && row !in members ==>
                    row.0 == day && forall kept :: kept in rest ==> row.1 < kept
      {
        ghost var least := Least(rest);
        var user :| user in rest && forall other :: other in rest ==> user <= other;
        members := members - {(day, user)};
        removed := removed + 1;
        rest := rest - {user};
        assert rest == Users(members, day);
      }
    }

    /** A chunk of one expired bucket, and the bucket itself once it is empty. */
    method PruneDay(day: int, limit: nat) returns (removed: nat)
      requires Valid() && (day in buckets ==> buckets[day] <= clock)
      modifies this`members, this`buckets
      ensures Valid() && members <= old(members)
      ensures removed == |old(members)| - |members| <= limit
      ensures removed < limit ==> Users(members, day) == {}
      ensures forall row :: row in old(members) && row !in members ==> row.0 == day
      ensures buckets == if Users(members, day) == {} then old(buckets) - {day} else old(buckets)
    {
      ghost var before := members;
      removed := DeleteMembers(day, limit);
      assert forall row :: row in before && row.0 == day ==> day in buckets && day * DAY + RETENTION <= clock;
      if day in buckets && buckets[day] <= clock && Users(members, day) == {} {
        forall row | row in members ensures row.0 != day {
          assert row.0 == day ==> row.1 in Users(members, day);
        }
        buckets := buckets - {day};
      }
    }

    /** One bounded cleanup: it takes rows of expired buckets only, and a bucket only once empty. */
    method Prune() returns (removed: nat)
      requires Valid()
      modifies this`members, this`buckets
      ensures Valid()
      ensures members <= old(members) && removed == |old(members)| - |members| <= 1000
      ensures forall row :: row in old(members) && row !in members ==>
                row.0 in old(buckets) && old(buckets)[row.0] <= clock
      ensures forall day :: day in buckets ==> day in old(buckets) && buckets[day] == old(buckets)[day]
      ensures forall day :: day in old(buckets) && day !in buckets ==>
                day in Expired(old(buckets), clock) && Users(members, day) == {}
      ensures removed < 1000 && |set day | day in old(buckets) && old(buckets)[day] <= clock| <= 100 ==>
                forall day :: day in buckets ==> clock < buckets[day]
    {
      assert Expired(buckets, clock) == set day | day in buckets && buckets[day] <= clock;
      var days := OldestExpired();
      var remaining: nat := PRUNED_MEMBERS;
      var i := 0;
      while i < |days| && remaining > 0
        invariant 0 <= i <= |days| && Valid()
        invariant members <= old(members) && |old(members)| - |members| == PRUNED_MEMBERS - remaining
        invariant 0 <= remaining <= PRUNED_MEMBERS
        invariant forall row :: row in old(members) && row !in members ==> row.0 in Expired(old(buckets), clock)
        invariant forall day :: day in buckets ==> day in old(buckets) && buckets[day] == old(buckets)[day]
        invariant forall day :: day in old(buckets) && day !in buckets ==>
                    day in Expired(old(buckets), clock) && Users(members, day) == {}
        invariant forall k :: i <= k < |days| && days[k] in buckets ==> buckets[days[k]] <= clock
        invariant forall k :: 0 <= k < i && remaining > 0 ==> days[k] !in buckets
      {
        var day := days[i];
        var deleted := PruneDay(day, remaining);
        remaining := remaining - deleted;
        i := i + 1;
      }
      removed := PRUNED_MEMBERS - remaining;
      if remaining > 0 && |Expired(old(buckets), clock)| <= PRUNED_BUCKETS {
        forall day | day in buckets ensures buckets[day] > clock { assert day !in days; }
      }
    }
  }

  /** The condition is exact: for every report that is not timely there is a run, up to that very
      clock, after which it misses a user recorded on the first day of its window. */
  method LateReport(now: int, days: int, clock: int, user: int) returns (state: Buckets)
    requires days > 0 && !Timely(clock, now, days)
    ensures state.Valid() && state.clock == clock && state.history == {(DayOf(now) - days, user)}
    ensures user in ActiveUsers(state.history, DayOf(now) - days, DayOf(now))
    ensures Reported(state.buckets, state.members, now, days) == {}
  {
    var day := DayOf(now) - days;
    state := new Buckets(day * DAY);
    assert DayOf(day * DAY) == day;
    state.RecordMember(user, day * DAY, day * DAY);
    state.Tick(clock);
    assert state.buckets == map[day := day * DAY + RETENTION];
    assert Expired(state.buckets, state.clock) == {day};
    assert state.members == {(day, user)};
    var removed := state.Prune();
    assert removed <= 1;
    assert day !in Expired(state.buckets, state.clock);
    assert day !in state.buckets;
    assert (day, user) in state.history;
  }

  /** How long after its instant a report is sure to be timely, to the microsecond: 1,176,876 seconds
      for the half year and 13,272,876 for the month. */
  lemma TimelyLongEnough(delay: int)
    ensures (forall clock, now :: clock <= now + delay ==> Timely(clock, now, 168)) <==> delay <= 1_176_876_000_000
    ensures (forall clock, now :: clock <= now + delay ==> Timely(clock, now, 28)) <==> delay <= 13_272_876_000_000
  {
    forall clock, now | clock <= now + delay
      ensures delay <= 1_176_876_000_000 ==> Timely(clock, now, 168)
      ensures delay <= 13_272_876_000_000 ==> Timely(clock, now, 28)
    {
      assert now < (DayOf(now) + 1) * DAY;
    }
    var now := DAY - 1;
    assert DayOf(now) == 0;
    assert delay > 1_176_876_000_000 ==> !Timely(now + delay, now, 168);
    assert delay > 13_272_876_000_000 ==> !Timely(now + delay, now, 28);
  }
}
