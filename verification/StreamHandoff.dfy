/** A timeline subscription over whole runs: its replay and the reads after it (src/jobs.rs,
    src/web/stream_socket.rs). */
module StreamHandoff {
  import opened StreamLog
  import P = StreamLogProofs
  import opened StreamReplay

  lemma {:induction false} GoneStaysGone(clock: int, run: seq<P.Step>, states: seq<P.Sys>, i: nat, j: nat, x: nat)
    requires P.IsRun(P.Empty(clock), run, states) && i <= j <= |run| && x < |states[i].history|
    ensures states[i].history <= states[j].history
    ensures states[j].history[x].id in states[j].log.rows ==> states[i].history[x].id in states[i].log.rows
    decreases j
  {
    if i < j {
      GoneStaysGone(clock, run, states, i, j - 1, x);
      P.RunKeepsLog(clock, run, states, j - 1);
      assert P.Takes(states[j - 1], run[j - 1], states[j - 1 + 1]);
      P.QuietRows(states[j - 1], run[j - 1]);
      if run[j - 1].Commit? { P.CommittedApart(states[j - 1], run[j - 1].t, x); }
    }
  }

  /** Between two states without polls or subscriptions the reader stands still. */
  lemma {:induction false} ReaderStands(clock: int, run: seq<P.Step>, states: seq<P.Sys>, i: nat, j: nat)
    requires P.IsRun(P.Empty(clock), run, states) && i <= j <= |run|
    requires forall k :: i <= k < j ==> !run[k].Poll? && !run[k].Subscribe?
    ensures states[i].reader == states[j].reader
    decreases j
  {
    if i < j {
      ReaderStands(clock, run, states, i, j - 1);
      assert P.Takes(states[j - 1], run[j - 1], states[j - 1 + 1]);
    }
  }

  /** `through` splits the history at the end it had when `through` was read. */
  lemma ThroughSplits(
      clock: int, run: seq<P.Step>, states: seq<P.Sys>, i: nat, j: nat, through: int, x: nat)
    requires P.IsRun(P.Empty(clock), run, states) && i <= j <= |run| && IsCursor(states[i].log.rows, through)
    requires x < |states[j].history|
    ensures |states[i].history| <= |states[j].history|
    ensures x >= |states[i].history| ==> states[j].history[x].id > through
    ensures x < |states[i].history| && states[i].history[x].id in states[i].log.rows ==>
              states[j].history[x].id <= through
  {
    P.RunKeepsLog(clock, run, states, i);
    P.RunKeepsLog(clock, run, states, j);
    P.HistoryGrows(clock, run, states, i, j);
    P.CursorIsPlace(states[i], through);
    var n := |states[i].history|;
    assert n > 0 ==> states[j].history[n - 1] == states[i].history[n - 1];
  }

  /** At the replay, everything still visible was either there when `through` was read, or is later;
      what the reader had not read by then is visible. */
  lemma ReplayedRows(
      clock: int, run: seq<P.Step>, states: seq<P.Sys>, i0: nat, i1: nat, i2: nat, through: int, k: nat)
    requires P.IsRun(P.Empty(clock), run, states) && i0 < i1 <= i2 <= |run|
    requires P.Subscribed(run, i0, i2) && P.Spared(run, states, i0 + 1, i2)
    requires forall l :: i1 <= l < i2 ==> !run[l].Poll?
    requires IsCursor(states[i1].log.rows, through) && P.SuffixFrom(states[i2].log.rows, states[i2].history, k)
    ensures var n, p := |states[i1].history|, states[i2].reader.Position();
            && k <= n <= |states[i2].history| && p <= n
            && (k <= p || p == n)
            && forall x :: k <= x < n ==> states[i2].history[x].id <= through
  {
    P.ReadersMissNothing(clock, run, states, i0, i1);
    P.ReadersMissNothing(clock, run, states, i0, i2);
    ReaderStands(clock, run, states, i1, i2);
    P.HistoryGrows(clock, run, states, i1, i2);
    var n, p, history := |states[i1].history|, states[i2].reader.Position(), states[i2].history;
    assert p < |history| ==> history[p].id in states[i2].log.rows;
    forall x | k <= x < n ensures history[x].id <= through {
      GoneStaysGone(clock, run, states, i1, i2, x);
      ThroughSplits(clock, run, states, i1, i2, through, x);
    }
  }

  lemma SliceIncreases(history: seq<StreamEvent>, a: nat, b: nat)
    requires P.Increasing(history) && a <= b <= |history|
    ensures Increasing(history[a..b])
  {
  }

  /** A replay at a later state is the replay of what was there when `through` was read. */
  lemma ReplayOfPrefix(history: seq<StreamEvent>, k: nat, n: nat, q: Query)
    requires P.Increasing(history) && k <= n <= |history|
    requires forall x :: n <= x < |history| ==> history[x].id > q.through
    ensures Replay(history[k..], q) == Replay(history[k..n], q)
  {
    assert history[k..] == history[k..n] + history[n..];
    SelectIgnoresLater(history[k..n], history[n..], q, Candidates);
    SliceIncreases(history, k, |history|);
    assert history[k..] == history[k..|history|];
    SliceIncreases(history, k, n);
    ReplayIgnoresOtherTraffic(history[k..], history[k..n], q);
  }

  /** What the reads after `from` add to a replay of the history up to `n`. */
  lemma LiveIsRest(history: seq<StreamEvent>, k: nat, n: nat, from: nat, to: nat, q: Query)
    requires k <= n <= |history| && from <= n && from <= to <= |history| && (k <= from || from == n)
    requires forall x :: k <= x < n ==> history[x].id <= q.through
    ensures var end := if n <= to then to else n;
            Forwarded(history[k..end], q, q.through) == Forwarded(history[from..to], q, q.through)
  {
    var end := if n <= to then to else n;
    assert history[k..end] == history[k..n] + history[n..end];
    ForwardedSplits(history[k..n], history[n..end], q, q.through);
    NoneForwarded(history[k..n], q, q.through);
    if n <= to {
      assert history[from..to] == history[from..n] + history[n..to];
      ForwardedSplits(history[from..n], history[n..to], q, q.through);
      NoneForwarded(history[from..n], q, q.through);
    } else {
      NoneForwarded(history[from..to], q, q.through);
      assert history[n..end] == [];
    }
  }

  /** The reader was handed, since state `i`, the stretch between its two positions. */
  lemma LiveStretch(clock: int, run: seq<P.Step>, states: seq<P.Sys>, i0: nat, i: nat, j: nat)
    requires P.IsRun(P.Empty(clock), run, states) && i0 < i <= j <= |run|
    requires P.Subscribed(run, i0, j) && P.Spared(run, states, i0 + 1, j)
    ensures |states[i].reader.delivered| <= |states[j].reader.delivered|
    ensures states[i].reader.Position() <= states[j].reader.Position() <= |states[j].history|
    ensures states[j].reader.delivered[|states[i].reader.delivered|..]
            == states[j].history[states[i].reader.Position()..states[j].reader.Position()]
  {
    P.ReadersMissNothing(clock, run, states, i0, i);
    P.ReadersMissNothing(clock, run, states, i0, j);
    P.DeliveredGrows(clock, run, states, i, j);
  }

  function Min(a: int, b: int): int { if a <= b then a else b }

  /** The hand-over for any two cursors: what lies above the smaller one is handed over. */
  lemma HandoffAtAnyCursors(
      clock: int, run: seq<P.Step>, states: seq<P.Sys>, i0: nat, i1: nat, i2: nat, j: nat, q: Query, k: nat)
    requires P.IsRun(P.Empty(clock), run, states) && i0 < i1 <= i2 <= j <= |run|
    requires P.Subscribed(run, i0, j) && P.Spared(run, states, i0 + 1, j)
    requires forall l :: i1 <= l < i2 ==> !run[l].Poll?
    requires IsCursor(states[i1].log.rows, q.through)
    requires P.SuffixFrom(states[i2].log.rows, states[i2].history, k)
    ensures var n, to := |states[i1].history|, states[j].reader.Position();
            var end := if n <= to then to else n;
            && k <= end <= |states[j].history|
            && |states[i2].reader.delivered| <= |states[j].reader.delivered|
            && Select(Replay(states[i2].history[k..], q), q, Fresh)
               + Forwarded(states[j].reader.delivered[|states[i2].reader.delivered|..], q, q.through)
               == Forwarded(states[j].history[k..end], q, Min(q.createAfter, q.through))
  {
    hide Replay, Select, Forwarded;
    ReplayedRows(clock, run, states, i0, i1, i2, q.through, k);
    LiveStretch(clock, run, states, i0, i2, j);
    P.HistoryGrows(clock, run, states, i1, i2);
    P.HistoryGrows(clock, run, states, i2, j);
    LaterIsBeyond(clock, run, states, i1, j, q.through);
    P.RunKeepsLog(clock, run, states, j);
    P.RunKeepsLog(clock, run, states, i2);
    var n, from, to := |states[i1].history|, states[i2].reader.Position(), states[j].reader.Position();
    var history, found := states[j].history, states[i2].history;
    assert forall x :: 0 <= x < |found| ==> found[x] == history[x];
    assert found[k..n] == history[k..n];
    ReplayOfPrefix(found, k, n, q);
    HandoffInHistory(history, k, n, from, to, q);
  }

  /**
   A reader connects at step `i0`. A subscription takes `through` at state `i1` and replays at `i2`,
   with no poll in between; polls go on up to state `j`. Its `createAfter` is a cursor that was read
   at some state `ia` up to then. As long as prunes spare the reader, the newer events of the replay
   and then the routed events read since are, in order and each exactly once, all routed events above
   `createAfter` from the oldest row the replay found up to the reader's position. That a prune may
   have emptied the log, and so set `through` back to zero, changes nothing.
   */
  lemma HandoffIsLossless(
      clock: int, run: seq<P.Step>, states: seq<P.Sys>, i0: nat, ia: nat, i1: nat, i2: nat, j: nat, q: Query, k: nat)
    requires P.IsRun(P.Empty(clock), run, states) && i0 < i1 <= i2 <= j <= |run| && ia <= i1
    requires P.Subscribed(run, i0, j) && P.Spared(run, states, i0 + 1, j)
    requires forall l :: i1 <= l < i2 ==> !run[l].Poll?
    requires IsCursor(states[ia].log.rows, q.createAfter) && IsCursor(states[i1].log.rows, q.through)
    requires P.SuffixFrom(states[i2].log.rows, states[i2].history, k)
    ensures var n, to := |states[i1].history|, states[j].reader.Position();
            var end := if n <= to then to else n;
            && k <= end <= |states[j].history|
            && |states[i2].reader.delivered| <= |states[j].reader.delivered|
            && Select(Replay(states[i2].history[k..], q), q, Fresh)
               + Forwarded(states[j].reader.delivered[|states[i2].reader.delivered|..], q, q.through)
               == Forwarded(states[j].history[k..end], q, q.createAfter)
  {
    HandoffAtAnyCursors(clock, run, states, i0, i1, i2, j, q, k);
    if q.createAfter > q.through {
      EmptiedLog(clock, run, states, ia, i1, i2, q.createAfter, q.through, k);
      LaterIsBeyond(clock, run, states, ia, j, q.createAfter);
      P.HistoryGrows(clock, run, states, ia, i1);
      var n, to := |states[i1].history|, states[j].reader.Position();
      var found := states[j].history[k..if n <= to then to else n];
      AllForwarded(found, q, q.through, q.createAfter);
    }
  }

  /** A later cursor lies below an earlier one only when the log was pruned empty in between. */
  lemma EmptiedLog(
      clock: int, run: seq<P.Step>, states: seq<P.Sys>, ia: nat, i1: nat, i2: nat, before: int, after: int, k: nat)
    requires P.IsRun(P.Empty(clock), run, states) && ia <= i1 <= i2 <= |run|
    requires IsCursor(states[ia].log.rows, before) && IsCursor(states[i1].log.rows, after) && before > after
    requires P.SuffixFrom(states[i2].log.rows, states[i2].history, k)
    ensures states[i1].log.rows == map[] && k >= |states[i1].history|
  {
    P.RunKeepsLog(clock, run, states, i1);
    P.HistoryGrows(clock, run, states, i1, i2);
    CursorsGrow(clock, run, states, ia, i1, before, after);
    var last := |states[i1].history| - 1;
    if last >= 0 {
      GoneStaysGone(clock, run, states, i1, i2, last);
      assert states[i2].history[last].id !in states[i2].log.rows;
    }
  }

  lemma CursorsGrow(clock: int, run: seq<P.Step>, states: seq<P.Sys>, ia: nat, i1: nat, before: int, after: int)
    requires P.IsRun(P.Empty(clock), run, states) && ia <= i1 <= |run|
    requires IsCursor(states[ia].log.rows, before) && IsCursor(states[i1].log.rows, after)
    ensures states[i1].log.rows == map[] || before <= after
  {
    P.RunKeepsLog(clock, run, states, ia);
    P.RunKeepsLog(clock, run, states, i1);
    P.HistoryGrows(clock, run, states, ia, i1);
    P.CursorIsPlace(states[ia], before);
    if states[i1].log.rows != map[] { CursorIsLast(states[i1], after); }
  }

  lemma CursorIsLast(sys: P.Sys, cursor: int)
    requires P.LogInv(sys) && P.Retained(sys) && IsCursor(sys.log.rows, cursor) && sys.log.rows != map[]
    ensures sys.history != [] && forall x :: 0 <= x < |sys.history| ==> sys.history[x].id <= cursor
  {
    var k :| P.SuffixFrom(sys.log.rows, sys.history, k);
    var i :| 0 <= i < |sys.history| && sys.history[i] == sys.log.rows[cursor];
    var last := |sys.history| - 1;
    assert k <= i <= last;
    assert sys.history[last].id in sys.log.rows;
  }

  /** Above both cursors, both forward alike. */
  lemma {:induction false} AllForwarded(log: seq<StreamEvent>, q: Query, a: int, b: int)
    requires forall e :: e in log ==> e.id > a && e.id > b
    ensures Forwarded(log, q, a) == Forwarded(log, q, b)
    decreases |log|
  {
    if log != [] {
      assert log[|log| - 1] in log;
      AllForwarded(log[..|log| - 1], q, a, b);
    }
  }

  lemma LaterIsBeyond(clock: int, run: seq<P.Step>, states: seq<P.Sys>, i: nat, j: nat, through: int)
    requires P.IsRun(P.Empty(clock), run, states) && i <= j <= |run| && IsCursor(states[i].log.rows, through)
    ensures forall x :: |states[i].history| <= x < |states[j].history| ==> states[j].history[x].id > through
  {
    forall x | |states[i].history| <= x < |states[j].history| ensures states[j].history[x].id > through {
      ThroughSplits(clock, run, states, i, j, through, x);
    }
  }

  lemma HandoffInHistory(history: seq<StreamEvent>, k: nat, n: nat, from: nat, to: nat, q: Query)
    requires P.Increasing(history) && k <= n <= |history| && from <= n && from <= to <= |history|
    requires k <= from || from == n
    requires forall x :: k <= x < n ==> history[x].id <= q.through
    requires forall x :: n <= x < |history| ==> history[x].id > q.through
    ensures var end := if n <= to then to else n;
            Select(Replay(history[k..n], q), q, Fresh) + Forwarded(history[from..to], q, q.through)
            == Forwarded(history[k..end], q, Min(q.createAfter, q.through))
  {
    var end := if n <= to then to else n;
    var log, later := history[k..n], history[n..end];
    assert history[k..end] == log + later;
    SliceIncreases(history, k, end);
    LiveIsRest(history, k, n, from, to, q);
    if q.createAfter <= q.through {
      ReplayThenReads(log, later, q);
    } else {
      NothingFresh(Replay(log, q), q);
    }
  }

  /** Nothing is both at most `through` and above a larger `createAfter`. */
  lemma {:induction false} NothingFresh(log: seq<StreamEvent>, q: Query)
    requires q.createAfter > q.through
    ensures Select(log, q, Fresh) == []
    decreases |log|
  {
    if log != [] { NothingFresh(log[..|log| - 1], q); }
  }

  /**
   The first subscription of a connection takes the connection's own cursor as `createAfter`. Its
   replay and its reads are then all routed events committed since the connection was made.
   */
  lemma FirstSubscriptionHearsEverything(
      clock: int, run: seq<P.Step>, states: seq<P.Sys>, i0: nat, i1: nat, i2: nat, j: nat, q: Query, k: nat)
    requires P.IsRun(P.Empty(clock), run, states) && i0 < i1 <= i2 <= j <= |run|
    requires P.Subscribed(run, i0, j) && P.Spared(run, states, i0 + 1, j)
    requires forall l :: i0 < l < i2 ==> !run[l].Poll?
    requires IsCursor(states[i0].log.rows, run[i0].cursor) && q.createAfter == run[i0].cursor
    requires IsCursor(states[i1].log.rows, q.through)
    requires P.SuffixFrom(states[i2].log.rows, states[i2].history, k)
    ensures var n, to, base := |states[i1].history|, states[j].reader.Position(), |states[i0].history|;
            var end := if n <= to then to else n;
            && base <= end <= |states[j].history|
            && |states[i2].reader.delivered| <= |states[j].reader.delivered|
            && (forall x :: base <= x < end ==> states[j].history[x].id > q.createAfter)
            && Select(Replay(states[i2].history[k..], q), q, Fresh)
               + Forwarded(states[j].reader.delivered[|states[i2].reader.delivered|..], q, q.through)
               == Forwarded(states[j].history[base..end], q, q.createAfter)
  {
    HandoffIsLossless(clock, run, states, i0, i0, i1, i2, j, q, k);
    ReplayedRows(clock, run, states, i0, i1, i2, q.through, k);
    FirstPlace(clock, run, states, i0, i2);
    LaterIsBeyond(clock, run, states, i0, j, q.createAfter);
    P.HistoryGrows(clock, run, states, i0, i1);
    P.HistoryGrows(clock, run, states, i2, j);
    EarlierIsBelow(clock, run, states, i0, i2, j, q.createAfter, k);
    var history, base := states[j].history, |states[i0].history|;
    var n, to := |states[i1].history|, states[j].reader.Position();
    DropBelow(history, k, base, if n <= to then to else n, q);
  }

  /** What is still visible of the history before the connection lies at or below its cursor. */
  lemma EarlierIsBelow(
      clock: int, run: seq<P.Step>, states: seq<P.Sys>, i0: nat, i2: nat, j: nat, cursor: int, k: nat)
    requires P.IsRun(P.Empty(clock), run, states) && i0 <= i2 <= j <= |run|
    requires IsCursor(states[i0].log.rows, cursor) && P.SuffixFrom(states[i2].log.rows, states[i2].history, k)
    ensures |states[i0].history| <= |states[j].history|
    ensures forall x :: k <= x < |states[i0].history| ==> states[j].history[x].id <= cursor
  {
    P.HistoryGrows(clock, run, states, i0, j);
    P.HistoryGrows(clock, run, states, i0, i2);
    forall x | k <= x < |states[i0].history| ensures states[j].history[x].id <= cursor {
      GoneStaysGone(clock, run, states, i0, i2, x);
      ThroughSplits(clock, run, states, i0, j, cursor, x);
    }
  }

  lemma DropBelow(history: seq<StreamEvent>, k: nat, base: nat, end: nat, q: Query)
    requires k <= base <= end <= |history|
    requires forall x :: k <= x < base ==> history[x].id <= q.createAfter
    ensures Forwarded(history[k..end], q, q.createAfter) == Forwarded(history[base..end], q, q.createAfter)
  {
    assert history[k..end] == history[k..base] + history[base..end];
    ForwardedSplits(history[k..base], history[base..end], q, q.createAfter);
    NoneForwarded(history[k..base], q, q.createAfter);
  }

  /** A reader that has not polled yet stands where the history ended when it connected. */
  lemma FirstPlace(clock: int, run: seq<P.Step>, states: seq<P.Sys>, i: nat, j: nat)
    requires P.IsRun(P.Empty(clock), run, states) && P.Subscribed(run, i, j)
    requires IsCursor(states[i].log.rows, run[i].cursor) && forall l :: i < l < j ==> !run[l].Poll?
    ensures states[j].reader == P.Reader(|states[i].history|, run[i].cursor, [])
  {
    P.RunKeepsLog(clock, run, states, i);
    assert P.Takes(states[i], run[i], states[i + 1]);
    P.SubscribeStartsReader(states[i], run[i].cursor);
    ReaderStands(clock, run, states, i + 1, j);
  }
}
