/** The cache in front of the activity report: one flight at a time, two clocks (src/activity.rs).
    Dates come from the wall clock, ticks (nanoseconds) from the monotone one. */
module ActivityCache {
  import opened Wrappers

  const SECOND := 1_000_000_000
  const CACHE_TTL := 60 * SECOND
  const FAILURE_TTL := 5 * SECOND
  const STALE_LIMIT := 24 * 3600 * SECOND

  datatype Counts = Counts(activeMonth: int, activeHalfyear: int)

  const Zero := Counts(0, 0)

  datatype Cached = Cached(day: int, until: int, counts: Option<Counts>)

  datatype Good = Good(at: int, counts: Counts)

  /** One refresh: when it began, when it ended, and what it brought. */
  datatype Load = Load(startDay: int, startTick: int, finishDay: int, finishTick: int, result: Option<Counts>) {
    predicate WithinOneDay() { startDay == finishDay }
    function Lifetime(): int { if result.Some? then CACHE_TTL else FAILURE_TTL }
  }

  function LatestSuccess(loads: seq<Load>): Option<Good>
    decreases |loads|
  {
    if loads == [] then None
    else
      var last := loads[|loads| - 1];
      if last.result.Some? then Some(Good(last.finishTick, last.result.value))
      else LatestSuccess(loads[..|loads| - 1])
  }

  predicate Usable(good: Option<Good>, tick: int) {
    good.Some? && (if tick < good.value.at then 0 else tick - good.value.at) <= STALE_LIMIT
  }

  function Fallback(good: Option<Good>, tick: int): Counts {
    if Usable(good, tick) then good.value.counts else Zero
  }

  /** What a refresh leaves in the cache: nothing when it crossed midnight. */
  function Entry(load: Load): Option<Cached> {
    if load.WithinOneDay() then Some(Cached(load.startDay, load.finishTick + load.Lifetime(), load.result)) else None
  }

  ghost predicate HoldsLast(current: Option<Cached>, loads: seq<Load>) {
    current == if loads == [] then None else Entry(loads[|loads| - 1])
  }

  /** A refresh that stayed within one date is not followed by another on that date too soon. */
  ghost predicate Spaced(loads: seq<Load>) {
    forall i :: 0 < i < |loads| && loads[i - 1].WithinOneDay() && loads[i].startDay == loads[i - 1].startDay ==>
      loads[i].startTick >= loads[i - 1].finishTick + loads[i - 1].Lifetime()
  }

  ghost predicate Ordered(loads: seq<Load>, tick: int) {
    && (forall i :: 0 <= i < |loads| ==> loads[i].startTick <= loads[i].finishTick <= tick)
    && (forall i :: 0 < i < |loads| ==> loads[i - 1].finishTick <= loads[i].startTick)
  }

  /** What a caller was given: the fresh cache entry, the refresh just made, the latest success
      while it is young enough, or zeroes when there is none. */
  ghost predicate Justified(r: Counts, day: int, tick: int, loads: seq<Load>, loaded: bool)
    requires loads != []
  {
    var last := loads[|loads| - 1];
    if last.result.Some? then
      && last.result.value == r
      && (!loaded ==> last.WithinOneDay() && last.startDay == day && 0 <= tick - last.finishTick < 60_000_000_000)
    else
      var good := LatestSuccess(loads);
      if good.Some? && tick - good.value.at <= 86_400_000_000_000 then r == good.value.counts && good.value.at <= tick
      else r == Counts(0, 0)
  }

  /** Index `i` is the last refresh that succeeded. */
  ghost predicate LastSuccessAt(loads: seq<Load>, i: int) {
    0 <= i < |loads| && loads[i].result.Some? && forall j :: i < j < |loads| ==> loads[j].result.None?
  }

  lemma {:induction false} LatestSuccessIs(loads: seq<Load>)
    ensures LatestSuccess(loads).None? ==> forall i :: 0 <= i < |loads| ==> loads[i].result.None?
    ensures forall i | LastSuccessAt(loads, i) ::
              LatestSuccess(loads) == Some(Good(loads[i].finishTick, loads[i].result.value))
    ensures LatestSuccess(loads).Some? ==> exists i :: LastSuccessAt(loads, i)
    decreases |loads|
  {
    if loads != [] {
      var front, last := loads[..|loads| - 1], |loads| - 1;
      LatestSuccessIs(front);
      if loads[last].result.Some? {
        assert LastSuccessAt(loads, last);
      } else {
        forall i ensures LastSuccessAt(loads, i) <==> LastSuccessAt(front, i) {
          assert forall j | 0 <= j < last :: loads[j] == front[j];
        }
      }
    }
  }

  lemma {:induction false} SuccessIsPast(loads: seq<Load>, tick: int)
    requires Ordered(loads, tick)
    ensures LatestSuccess(loads).Some? ==> LatestSuccess(loads).value.at <= tick
    decreases |loads|
  {
    if loads != [] { SuccessIsPast(loads[..|loads| - 1], tick); }
  }

  lemma OrderedMore(loads: seq<Load>, load: Load, tick: int)
    requires Ordered(loads, load.startTick) && load.startTick <= load.finishTick <= tick
    ensures Ordered(loads + [load], tick)
  {
  }

  lemma SpacedMore(loads: seq<Load>, load: Load)
    requires Spaced(loads)
    requires loads != [] && loads[|loads| - 1].WithinOneDay() && load.startDay == loads[|loads| - 1].startDay ==>
               load.startTick >= loads[|loads| - 1].finishTick + loads[|loads| - 1].Lifetime()
    ensures Spaced(loads + [load])
  {
  }

  function Served(result: Option<Counts>, good: Option<Good>, tick: int): Counts {
    if result.Some? then result.value else Fallback(good, tick)
  }

  lemma HitIsJustified(current: Option<Cached>, loads: seq<Load>, day: int, tick: int)
    requires HoldsLast(current, loads) && Ordered(loads, tick)
    requires current.Some? && current.value.day == day && tick < current.value.until
    ensures loads != [] && Justified(Served(current.value.counts, LatestSuccess(loads), tick), day, tick, loads, false)
  {
    SuccessIsPast(loads, tick);
  }

  lemma RefreshIsJustified(loads: seq<Load>, load: Load)
    requires Ordered(loads + [load], load.finishTick)
    ensures LatestSuccess(loads + [load])
            == if load.result.Some? then Some(Good(load.finishTick, load.result.value)) else LatestSuccess(loads)
    ensures Justified(Served(load.result, LatestSuccess(loads + [load]), load.finishTick),
                      load.startDay, load.finishTick, loads + [load], true)
  {
    assert (loads + [load])[..|loads|] == loads;
    SuccessIsPast(loads + [load], load.finishTick);
  }

  /** A refresh keeps everything that is known of the refreshes so far. */
  lemma RefreshKeeps(loads: seq<Load>, load: Load, tick: int, current: Option<Cached>)
    requires HoldsLast(current, loads) && Ordered(loads, tick) && Spaced(loads)
    requires tick <= load.startTick <= load.finishTick
    requires !(current.Some? && current.value.day == load.startDay && load.startTick < current.value.until)
    ensures HoldsLast(Entry(load), loads + [load])
    ensures Ordered(loads + [load], load.finishTick) && Spaced(loads + [load])
    ensures |loads + [load]| == |loads| + 1
  {
    OrderedMore(loads, load, load.finishTick);
    SpacedMore(loads, load);
  }

  class Cache {
    var current: Option<Cached>
    var lastGood: Option<Good>
    /** Every refresh so far, and the last tick read. */
    ghost var loads: seq<Load>
    ghost var lastTick: int

    ghost predicate Valid()
      reads this
    {
      && HoldsLast(current, loads)
      && lastGood == LatestSuccess(loads)
      && Ordered(loads, lastTick)
      && Spaced(loads)
    }

    constructor (tick: int)
      ensures Valid() && loads == [] && lastTick == tick
    {
      current, lastGood, loads, lastTick := None, None, [], tick;
    }

    /** One call. `result` is what a refresh begun now would bring (None: an error or a timeout), and
        `finishDay`, `finishTick` what the clocks would show at its end. */
    method Get(day: int, tick: int, result: Option<Counts>, finishDay: int, finishTick: int) returns (r: Counts)
      requires Valid() && lastTick <= tick <= finishTick
      modifies this
      ensures Valid() && loads != []
      ensures loads == old(loads) || loads == old(loads) + [Load(day, tick, finishDay, finishTick, result)]
      ensures loads == old(loads) <==>
                old(current.Some? && current.value.day == day && tick < current.value.until)
      // In terms of the last refresh: it is reused on its own date, for a minute or for five seconds.
      ensures loads == old(loads) <==>
                && old(loads) != []
                && var last := old(loads)[|old(loads)| - 1];
                   && last.startDay == last.finishDay == day
                   && tick < last.finishTick + if last.result.Some? then 60_000_000_000 else 5_000_000_000
      ensures lastTick == if loads == old(loads) then tick else finishTick
      ensures Justified(r, day, lastTick, loads, loads != old(loads))
    {
      if current.Some? && current.value.day == day && tick < current.value.until {
        HitIsJustified(current, loads, day, tick);
        lastTick := tick;
        return Served(current.value.counts, lastGood, tick);
      }
      r := Refresh(day, tick, result, finishDay, finishTick);
    }

    /** The refresh: keep a success, and publish the entry unless midnight passed. */
    method Refresh(day: int, tick: int, result: Option<Counts>, finishDay: int, finishTick: int) returns (r: Counts)
      requires Valid() && lastTick <= tick <= finishTick
      requires !(current.Some? && current.value.day == day && tick < current.value.until)
      modifies this
      ensures Valid() && lastTick == finishTick
      ensures loads == old(loads) + [Load(day, tick, finishDay, finishTick, result)] && |loads| == |old(loads)| + 1
      ensures Justified(r, day, finishTick, loads, true)
    {
      ghost var load := Load(day, tick, finishDay, finishTick, result);
      RefreshKeeps(loads, load, lastTick, current);
      RefreshIsJustified(loads, load);
      loads, lastTick := loads + [load], finishTick;
      if result.Some? { lastGood := Some(Good(finishTick, result.value)); }
      current := if finishDay == day
                 then Some(Cached(day, finishTick + (if result.Some? then CACHE_TTL else FAILURE_TTL), result))
                 else None;
      assert current == Entry(load);
      r := Served(result, lastGood, finishTick);
    }
  }

  // ------------------------------------------------------------------ spacing

  /** The time a refresh forces the next one to wait: only on the same date. */
  function Gap(load: Load, next: Load): int {
    if load.WithinOneDay() && next.startDay == load.startDay then load.Lifetime() else 0
  }

  /** All the waiting that dates and results force between two refreshes. */
  function Forced(loads: seq<Load>, i: nat, j: nat): int
    requires i <= j < |loads|
    decreases j
  {
    if i == j then 0 else Forced(loads, i, j - 1) + Gap(loads[j - 1], loads[j])
  }

  /** The same refreshes, dates and results, at other ticks. */
  ghost predicate SameDates(a: seq<Load>, b: seq<Load>) {
    && |a| == |b|
    && forall i :: 0 <= i < |a| ==>
         a[i].startDay == b[i].startDay && a[i].finishDay == b[i].finishDay && a[i].result == b[i].result
  }

  lemma {:induction false} WaitsAtLeastForced(loads: seq<Load>, tick: int, i: nat, j: nat)
    requires Ordered(loads, tick) && Spaced(loads) && i < j < |loads|
    ensures loads[j].startTick >= loads[i].finishTick + Forced(loads, i, j)
    decreases j
  {
    assert loads[j].startTick >= loads[j - 1].finishTick + Gap(loads[j - 1], loads[j]);
    if i + 1 < j { WaitsAtLeastForced(loads, tick, i, j - 1); }
  }

  lemma {:induction false} ForcedByDates(a: seq<Load>, b: seq<Load>, i: nat, j: nat)
    requires SameDates(a, b) && i <= j < |a|
    ensures Forced(a, i, j) == Forced(b, i, j)
    decreases j
  {
    if i < j { ForcedByDates(a, b, i, j - 1); }
  }

  /** Refreshes with these dates and results, each instantaneous and as early as it may be. */
  function Tight(loads: seq<Load>): (tight: seq<Load>)
    ensures |tight| == |loads|
    decreases |loads|
  {
    if loads == [] then []
    else
      var front, last := Tight(loads[..|loads| - 1]), loads[|loads| - 1];
      var tick := if front == [] then 0 else front[|front| - 1].finishTick + Gap(front[|front| - 1], last);
      front + [Load(last.startDay, tick, last.finishDay, tick, last.result)]
  }

  function LastTick(loads: seq<Load>): int { if loads == [] then 0 else loads[|loads| - 1].finishTick }

  lemma {:induction false} TightIsPossible(loads: seq<Load>)
    ensures SameDates(Tight(loads), loads) && Spaced(Tight(loads)) && Ordered(Tight(loads), LastTick(Tight(loads)))
    decreases |loads|
  {
    if loads != [] {
      var front := loads[..|loads| - 1];
      TightIsPossible(front);
      var last := loads[|loads| - 1];
      TightMore(Tight(front), last);
      var tick := LastTick(Tight(front)) + if Tight(front) == [] then 0 else Gap(Tight(front)[|front| - 1], last);
      assert Tight(loads) == Tight(front) + [Load(last.startDay, tick, last.finishDay, tick, last.result)];
    }
  }

  lemma {:induction false} TightMore(tight: seq<Load>, last: Load)
    requires Spaced(tight) && Ordered(tight, LastTick(tight))
    ensures var tick := LastTick(tight) + if tight == [] then 0 else Gap(tight[|tight| - 1], last);
            var longer := tight + [Load(last.startDay, tick, last.finishDay, tick, last.result)];
            Spaced(longer) && Ordered(longer, LastTick(longer))
  {
    var tick := LastTick(tight) + if tight == [] then 0 else Gap(tight[|tight| - 1], last);
    var load := Load(last.startDay, tick, last.finishDay, tick, last.result);
    assert Ordered(tight, tick);
    OrderedMore(tight, load, tick);
    SpacedMore(tight, load);
  }

  lemma {:induction false} TightWaitsForced(loads: seq<Load>, i: nat, j: nat)
    requires i < j < |loads|
    ensures Tight(loads)[j].startTick == Tight(loads)[i].finishTick + Forced(loads, i, j)
    decreases |loads|
  {
    var front := loads[..|loads| - 1];
    assert Tight(loads)[..|front|] == Tight(front);
    TightIsPossible(front);
    if j < |front| {
      TightWaitsForced(front, i, j);
      ForcedInFront(loads, i, j);
    } else {
      var last := |front| - 1;
      assert Gap(Tight(front)[last], loads[j]) == Gap(loads[last], loads[j]);
      if i < last {
        TightWaitsForced(front, i, last);
        ForcedInFront(loads, i, last);
      }
    }
  }

  lemma {:induction false} ForcedInFront(loads: seq<Load>, i: nat, j: nat)
    requires i <= j < |loads| - 1
    ensures Forced(loads[..|loads| - 1], i, j) == Forced(loads, i, j)
    decreases j
  {
    if i < j { ForcedInFront(loads, i, j - 1); }
  }

  /** Whatever the ticks, the later refresh comes a lifetime of the earlier one after it. */
  ghost predicate AlwaysSpaced(loads: seq<Load>, i: nat, j: nat)
    requires i < j < |loads|
  {
    forall other: seq<Load>, tick | SameDates(other, loads) && Ordered(other, tick) && Spaced(other) ::
      other[j].startTick >= other[i].finishTick + other[i].Lifetime()
  }

  /**
   Two refreshes are always a lifetime of the first apart exactly when the dates and results between
   them force that much waiting.
   */
  lemma RefreshesAreSpacedExactly(loads: seq<Load>, i: nat, j: nat)
    requires i < j < |loads|
    ensures AlwaysSpaced(loads, i, j) <==> Forced(loads, i, j) >= loads[i].Lifetime()
  {
    forall other: seq<Load>, tick | SameDates(other, loads) && Ordered(other, tick) && Spaced(other)
      ensures other[j].startTick >= other[i].finishTick + Forced(loads, i, j)
    {
      WaitsAtLeastForced(other, tick, i, j);
      ForcedByDates(other, loads, i, j);
    }
    var tight := Tight(loads);
    TightIsPossible(loads);
    TightWaitsForced(loads, i, j);
    assert SameDates(tight, loads) && Ordered(tight, LastTick(tight)) && Spaced(tight);
  }

  /** When the `n`-th refresh of the tightest schedule begins, and ends. */
  function TightTick(loads: seq<Load>, n: nat): int
    requires n < |loads|
  {
    LastTick(Tight(loads[..n])) + if n == 0 then 0 else Gap(loads[n - 1], loads[n])
  }

  lemma TightGrows(loads: seq<Load>, n: nat)
    requires n < |loads|
    ensures Tight(loads[..n + 1]) == Tight(loads[..n]) +
              [Load(loads[n].startDay, TightTick(loads, n), loads[n].finishDay, TightTick(loads, n), loads[n].result)]
  {
    assert loads[..n + 1][..n] == loads[..n];
    TightIsPossible(loads[..n]);
    if n > 0 { assert Gap(Tight(loads[..n])[n - 1], loads[n]) == Gap(loads[n - 1], loads[n]); }
  }

  /** At that moment the entry of the refresh before it is of no use. */
  lemma TightIsRefreshed(current: Option<Cached>, loads: seq<Load>, n: nat)
    requires n < |loads| && HoldsLast(current, Tight(loads[..n]))
    ensures !(current.Some? && current.value.day == loads[n].startDay && TightTick(loads, n) < current.value.until)
    ensures LastTick(Tight(loads[..n])) <= TightTick(loads, n)
  {
    TightIsPossible(loads[..n]);
  }

  /** The tightest schedule is one that a cache really goes through. */
  method Realize(loads: seq<Load>) returns (cache: Cache)
    ensures cache.Valid() && cache.loads == Tight(loads)
  {
    hide Tight, Gap, Ordered, Spaced, LatestSuccess;
    cache := new Cache(0);
    assert loads[..0] == [];
    var tick := 0;
    for n := 0 to |loads|
      invariant cache.Valid() && fresh(cache) && cache.loads == Tight(loads[..n])
      invariant tick == cache.lastTick == LastTick(cache.loads)
    {
      var load := loads[n];
      tick := tick + if n == 0 then 0 else Gap(loads[n - 1], load);
      TightGrows(loads, n);
      TightIsRefreshed(cache.current, loads, n);
      var r := cache.Get(load.startDay, tick, load.result, load.finishDay, tick);
    }
    assert loads[..|loads|] == loads;
  }

  // ---------------------------------------------------------------- special cases

  /** As long as refreshes stay on one date, each comes a full lifetime after every earlier one: a
      minute after a success, five seconds after a failure. */
  lemma {:induction false} RefreshesOfOneDateAreSpaced(loads: seq<Load>, tick: int, i: nat, j: nat)
    requires Ordered(loads, tick) && Spaced(loads) && i < j < |loads|
    requires forall k :: i <= k < j ==> loads[k].WithinOneDay() && loads[k].startDay == loads[j].startDay
    ensures loads[j].startTick >= loads[i].finishTick + if loads[i].result.Some? then 60_000_000_000 else 5_000_000_000
  {
    WaitsAtLeastForced(loads, tick, i, j);
    FirstGapIsForced(loads, i, j);
    assert loads[i + 1].startDay == loads[i].startDay;
  }

  lemma {:induction false} FirstGapIsForced(loads: seq<Load>, i: nat, j: nat)
    requires i < j < |loads|
    ensures Forced(loads, i, j) >= Gap(loads[i], loads[i + 1])
    decreases j
  {
    if i + 1 < j { FirstGapIsForced(loads, i, j - 1); }
  }

  /** A date that is left at once and returned to at once is refreshed again at once. */
  lemma LeavingForcesNothing(loads: seq<Load>, i: nat)
    requires i + 2 < |loads| && loads[i + 1].startDay != loads[i].startDay && loads[i + 2].startDay == loads[i].startDay
    ensures !AlwaysSpaced(loads, i, i + 2)
  {
    assert Forced(loads, i, i + 1) == Gap(loads[i], loads[i + 1]) == 0 by { assert Forced(loads, i, i) == 0; }
    assert Gap(loads[i + 1], loads[i + 2]) == 0;
    RefreshesAreSpacedExactly(loads, i, i + 2);
  }

  /** Leaving is not enough, though: two successes on the other date already force the minute. */
  lemma DetourForcesTheWait(loads: seq<Load>, i: nat)
    requires i + 3 < |loads| && loads[i].result.Some? && loads[i + 1].result.Some?
    requires loads[i + 1].WithinOneDay() && loads[i + 2].startDay == loads[i + 1].startDay
    requires loads[i + 1].startDay != loads[i].startDay && loads[i + 3].startDay == loads[i].startDay
    ensures AlwaysSpaced(loads, i, i + 3)
  {
    assert Forced(loads, i, i + 1) == 0 by { assert Forced(loads, i, i) == 0; }
    assert Forced(loads, i, i + 2) == CACHE_TTL;
    assert Forced(loads, i, i + 3) == CACHE_TTL;
    RefreshesAreSpacedExactly(loads, i, i + 3);
  }
}
