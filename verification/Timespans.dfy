/** On-time accounting: src/datetime/DateTimeRange.cpp and src/datetime/TimespanHistory.cpp. Instants are whole seconds;
    the local calendar is a fixed offset from UTC. */
module Timespans {
  import opened Series

  const SECONDS_PER_DAY := 86400

  // ---------------------------------------------------------------- the day-splitting iterator

  function Day(t: int, utcOffset: int): int
  {
    (t + utcOffset) / SECONDS_PER_DAY
  }

  function Midnight(day: int, utcOffset: int): int
  {
    day * SECONDS_PER_DAY - utcOffset
  }

  /** Where the iterator goes from cur: the next midnight, the end within the end's own day, one past the end after
      it. */
  function NextStop(cur: int, end: int, utcOffset: int): int
  {
    if cur == end then end + 1
    else if Day(cur, utcOffset) == Day(end, utcOffset) then end
    else Midnight(Day(cur, utcOffset) + 1, utcOffset)
  }

  /** Between the ends of a range the iterator moves forward, never leaves the range, and never jumps over a midnight.
      */
  lemma NextStopSplitsAtMidnights(cur: int, end: int, utcOffset: int)
    requires cur < end
    ensures cur < NextStop(cur, end, utcOffset) <= end
    ensures forall day :: !(cur < Midnight(day, utcOffset) < NextStop(cur, end, utcOffset))
    ensures NextStop(cur, end, utcOffset) == end
            || exists day :: NextStop(cur, end, utcOffset) == Midnight(day, utcOffset)
  {
    var d := Day(cur, utcOffset);
    assert Midnight(d, utcOffset) <= cur < Midnight(d + 1, utcOffset);
    assert Midnight(Day(end, utcOffset), utcOffset) <= end < Midnight(Day(end, utcOffset) + 1, utcOffset);
    assert d <= Day(end, utcOffset);
  }

  class DayIterator {
    const end: int
    const utcOffset: int
    var cur: int

    constructor (start: int, end: int, utcOffset: int)
      ensures cur == start && this.end == end && this.utcOffset == utcOffset
    {
      this.end, this.utcOffset, cur := end, utcOffset, start;
    }

    method Next()
      modifies this
      ensures cur == NextStop(old(cur), end, utcOffset)
    {
      if cur == end {
        cur := end + 1;
        return;
      }
      if Day(cur, utcOffset) == Day(end, utcOffset) {
        cur := end;
      } else {
        cur := Midnight(Day(cur, utcOffset) + 1, utcOffset);
      }
    }
  }

  /** Adds up the pieces of [start, end] as the iterator splits it: nothing is lost or counted twice. An instant 0 would
      read as "no instant yet", hence start > 0. */
  method SumOfPieces(start: int, end: int, utcOffset: int) returns (total: int)
    requires 0 < start <= end
    ensures total == end - start
  {
    total := 0;
    var ts := new DayIterator(start, end, utcOffset);
    var lastTs := 0;
    while ts.cur != end + 1
      invariant fresh(ts) && ts.end == end && ts.utcOffset == utcOffset
      invariant if lastTs == 0 then ts.cur == start && total == 0 else start <= lastTs <= end && total == lastTs - start
      invariant ts.cur <= end || (ts.cur == end + 1 && lastTs == end)
      invariant lastTs != 0 ==> lastTs < ts.cur
      decreases end + 1 - ts.cur
    {
      if lastTs == 0 {
        lastTs := ts.cur;
      } else {
        total := total + (ts.cur - lastTs);
        lastTs := ts.cur;
      }
      if ts.cur < end {
        NextStopSplitsAtMidnights(ts.cur, end, utcOffset);
      }
      ts.Next();
    }
  }

  // ---------------------------------------------------------------- spans

  /** to == 0 marks the span that is still open. */
  datatype Span = Span(from: int, to: int)

  /** retention_days * 86400 in 32-bit unsigned arithmetic. */
  function RetentionSeconds(retentionDays: nat): nat
  {
    retentionDays * SECONDS_PER_DAY % 0x1_0000_0000
  }

  predicate AcceptsIn(history: seq<Span>, ts: int)
  {
    history == [] || (history[|history| - 1].to != 0 && history[|history| - 1].to <= ts)
  }

  predicate AcceptsOut(history: seq<Span>, ts: int)
  {
    history != [] && history[|history| - 1].to == 0 && history[|history| - 1].from <= ts
  }

  function ClockedIn(history: seq<Span>, ts: int): seq<Span>
  {
    if AcceptsIn(history, ts) then history + [Span(ts, 0)] else history
  }

  function Closed(history: seq<Span>, ts: int): seq<Span>
    requires history != []
  {
    history[..|history| - 1] + [Span(history[|history| - 1].from, ts)]
  }

  /** The spans that ended at most retention seconds ago. */
  function Recent(history: seq<Span>, now: int, retention: int): seq<Span>
  {
    if history == [] then []
    else
      var s := history[|history| - 1];
      Recent(history[..|history| - 1], now, retention) + if now - s.to > retention then [] else [s]
  }

  function ClockedOut(history: seq<Span>, ts: int, now: int, retention: int): seq<Span>
  {
    if AcceptsOut(history, ts) then Recent(Closed(history, ts), now, retention) else history
  }

  /** What GetTotalForLast counts for one span. */
  function SpanTotal(s: Span, lo: int, now: int): int
  {
    if s.to != 0 && s.to < lo then 0
    else (if s.to == 0 then now else s.to) - Max(s.from, lo)
  }

  function HistoryTotal(history: seq<Span>, lo: int, now: int): int
  {
    if history == [] then 0
    else HistoryTotal(history[..|history| - 1], lo, now) + SpanTotal(history[|history| - 1], lo, now)
  }

  /** None stands for the exception thrown by a lookup beyond the retention. */
  function TotalForLast(history: seq<Span>, nseconds: nat, now: int, retention: int): Option<int>
  {
    if nseconds > retention then None else Some(HistoryTotal(history, now - nseconds, now))
  }

  /** Only the last span may be open, spans follow each other, and no recorded instant is after now. */
  ghost predicate Ordered(history: seq<Span>, now: int)
  {
    && (forall i :: 0 <= i < |history| ==> 0 < history[i].from <= now)
    && (forall i :: 0 <= i < |history| ==>
          if history[i].to == 0 then i == |history| - 1 else history[i].from <= history[i].to <= now)
    && (forall i, j :: 0 <= i < j < |history| ==> history[i].to <= history[j].from)
  }

  // ---------------------------------------------------------------- on-time as a set of seconds

  /** The device was on during the second that starts at t. */
  ghost predicate OnAt(history: seq<Span>, now: int, t: int)
  {
    exists i :: 0 <= i < |history| && Within(history[i], now, t)
  }

  predicate Within(s: Span, now: int, t: int)
  {
    s.from <= t < if s.to == 0 then now else s.to
  }

  ghost function OnSeconds(history: seq<Span>, lo: int, now: int): set<int>
  {
    set t | lo <= t < now && OnAt(history, now, t)
  }

  ghost function Interval(lo: int, hi: int): (r: set<int>)
    ensures forall t :: t in r <==> lo <= t < hi
    ensures |r| == Max(hi - lo, 0)
    decreases hi - lo
  {
    if lo < hi then Interval(lo, hi - 1) + {hi - 1} else {}
  }

  lemma SpanSeconds(s: Span, lo: int, now: int)
    requires lo <= now && s.from <= now && (s.to != 0 ==> s.from <= s.to <= now)
    ensures (set t | lo <= t < now && Within(s, now, t))
         == Interval(Max(s.from, lo), Max(if s.to == 0 then now else s.to, lo))
    ensures |set t | lo <= t < now && Within(s, now, t)| == SpanTotal(s, lo, now)
  {
    var hi := if s.to == 0 then now else s.to;
    assert (set t | lo <= t < now && Within(s, now, t)) == Interval(Max(s.from, lo), Max(hi, lo));
  }

  /** The computed total is the number of seconds of the window during which the device was on. */
  lemma {:induction false} TotalIsOnSeconds(history: seq<Span>, lo: int, now: int)
    requires Ordered(history, now) && lo <= now
    ensures HistoryTotal(history, lo, now) == |OnSeconds(history, lo, now)|
  {
    if history == [] {
      assert OnSeconds(history, lo, now) == {};
    } else {
      var n := |history| - 1;
      var init, s := history[..n], history[n];
      TotalIsOnSeconds(init, lo, now);
      SpanSeconds(s, lo, now);
      OnSecondsSplit(history, lo, now);
    }
  }

  lemma OnSecondsSplit(history: seq<Span>, lo: int, now: int)
    requires history != [] && Ordered(history, now)
    ensures var init, s := history[..|history| - 1], history[|history| - 1];
            var own := set t | lo <= t < now && Within(s, now, t);
            OnSeconds(history, lo, now) == OnSeconds(init, lo, now) + own && OnSeconds(init, lo, now) !! own
  {
    var n := |history| - 1;
    var init, s := history[..n], history[n];
    forall t
      ensures OnAt(history, now, t) <==> OnAt(init, now, t) || Within(s, now, t)
    {
      if OnAt(init, now, t) {
        var i :| 0 <= i < n && Within(init[i], now, t);
        assert Within(history[i], now, t);
      }
      if Within(s, now, t) {
        assert Within(history[n], now, t);
      }
      if OnAt(history, now, t) && !Within(s, now, t) {
        var i :| 0 <= i < |history| && Within(history[i], now, t);
        assert init[i] == history[i];
      }
    }
  }

  /** kept holds every span of log except some that ended more than the retention before now. */
  ghost predicate KeepsRecent(kept: seq<Span>, log: seq<Span>, now: int, retention: int)
  {
    && (forall s :: s in kept ==> s in log)
    && (forall s :: s in log && s !in kept ==> s.to != 0 && now - s.to > retention)
  }

  /** Within the retention, purging is invisible: the seconds are those of the full log. */
  lemma PurgeIsInvisible(kept: seq<Span>, log: seq<Span>, lo: int, now: int, retention: int)
    requires KeepsRecent(kept, log, now, retention) && now - lo <= retention
    ensures OnSeconds(kept, lo, now) == OnSeconds(log, lo, now)
  {
    forall t | lo <= t < now
      ensures OnAt(kept, now, t) <==> OnAt(log, now, t)
    {
      if OnAt(kept, now, t) {
        var i :| 0 <= i < |kept| && Within(kept[i], now, t);
        assert kept[i] in log;
        var j :| 0 <= j < |log| && log[j] == kept[i];
        assert Within(log[j], now, t);
      }
      if OnAt(log, now, t) {
        var i :| 0 <= i < |log| && Within(log[i], now, t);
        assert log[i] in kept;
        var j :| 0 <= j < |kept| && kept[j] == log[i];
        assert Within(kept[j], now, t);
      }
    }
  }

  lemma {:induction false} RecentKeeps(history: seq<Span>, now: int, retention: int)
    ensures forall s :: s in Recent(history, now, retention) <==> s in history && now - s.to <= retention
  {
    if history != [] {
      RecentKeeps(history[..|history| - 1], now, retention);
      assert history == history[..|history| - 1] + [history[|history| - 1]];
    }
  }

  lemma OrderedSnoc(init: seq<Span>, s: Span, now: int)
    ensures Ordered(init + [s], now) <==>
            && Ordered(init, now) && (forall i :: 0 <= i < |init| ==> init[i].to != 0 && init[i].to <= s.from)
            && 0 < s.from <= now && (s.to == 0 || s.from <= s.to <= now)
  {
    var all := init + [s];
    assert all[|init|] == s;
    assert forall i :: 0 <= i < |init| ==> all[i] == init[i];
    if Ordered(all, now) {
      forall i | 0 <= i < |init|
        ensures init[i].to != 0 && init[i].to <= s.from && 0 < init[i].from <= init[i].to <= now
      {
        assert all[i].to <= all[|init|].from;
      }
    }
  }

  lemma {:induction false} RecentOrdered(history: seq<Span>, now: int, retention: int)
    requires Ordered(history, now)
    ensures Ordered(Recent(history, now, retention), now)
  {
    hide Ordered;
    if history == [] {
      EmptyOrdered(now);
    } else {
      var n := |history| - 1;
      var init, s := history[..n], history[n];
      assert history == init + [s];
      OrderedSnoc(init, s, now);
      var kept := Recent(init, now, retention);
      RecentOrdered(init, now, retention);
      RecentKeeps(init, now, retention);
      forall i | 0 <= i < |kept|
        ensures kept[i].to != 0 && kept[i].to <= s.from
      {
        assert kept[i] in kept;
      }
      OrderedSnoc(kept, s, now);
      assert kept + [] == kept;
    }
  }

  lemma EmptyOrdered(now: int)
    ensures Ordered([], now)
  {
  }

  lemma OrderedLater(history: seq<Span>, now: int, later: int)
    requires Ordered(history, now) && now <= later
    ensures Ordered(history, later)
  {
  }

  /** The last span of an ordered history, open so far, is closed at ts. */
  lemma ClosedOrdered(history: seq<Span>, ts: int, now: int)
    requires Ordered(history, now) && AcceptsOut(history, ts) && 0 < ts <= now
    ensures Ordered(Closed(history, ts), now)
  {
    hide Ordered;
    var n := |history| - 1;
    assert history == history[..n] + [history[n]];
    OrderedSnoc(history[..n], history[n], now);
    OrderedSnoc(history[..n], Span(history[n].from, ts), now);
  }

  lemma ClockedInOrdered(history: seq<Span>, ts: int, now: int)
    requires Ordered(history, now) && 0 < ts <= now
    ensures Ordered(ClockedIn(history, ts), now)
  {
    if AcceptsIn(history, ts) {
      var s := Span(ts, 0);
      forall i | 0 <= i < |history|
        ensures history[i].to != 0 && history[i].to <= ts
      {
        if i < |history| - 1 {
          assert history[i].to <= history[|history| - 1].from;
        }
      }
      OrderedSnoc(history, s, now);
    }
  }

  /** The log of a history: every span ever accepted, purged or not. */
  ghost predicate Logs(history: seq<Span>, log: seq<Span>, now: int, retention: int)
  {
    && KeepsRecent(history, log, now, retention)
    && (Open(history) <==> Open(log))
    && (Open(history) ==> log[|log| - 1] == history[|history| - 1])
    && (forall i :: 0 <= i < |log| - 1 ==> log[i].to != 0)
  }

  predicate Open(spans: seq<Span>)
  {
    spans != [] && spans[|spans| - 1].to == 0
  }

  lemma LogsIn(history: seq<Span>, log: seq<Span>, ts: int, now: int, retention: int)
    requires Logs(history, log, now, retention) && AcceptsIn(history, ts)
    ensures Logs(history + [Span(ts, 0)], log + [Span(ts, 0)], now, retention)
  {
  }

  lemma LogsOut(history: seq<Span>, log: seq<Span>, ts: int, now: int, retention: int)
    requires Logs(history, log, now, retention) && AcceptsOut(history, ts) && 0 < ts
    requires Ordered(history, now)
    ensures Logs(Recent(Closed(history, ts), now, retention), Closed(log, ts), now, retention)
  {
    hide Recent;
    var n, m := |history| - 1, |log| - 1;
    var open, s := history[n], Span(history[n].from, ts);
    var h', log' := Closed(history, ts), Closed(log, ts);
    var kept := Recent(h', now, retention);
    RecentKeeps(h', now, retention);
    forall x
      ensures x in h' <==> x == s || (x in history && x != open)
    {
      InClosed(history, open, s, x);
    }
    forall x
      ensures x in log' <==> x == s || (x in log && x != open)
    {
      InClosed(log, open, s, x);
    }
    if |kept| > 0 {
      assert kept[|kept| - 1] in h';
    }
  }

  lemma InClosed(spans: seq<Span>, open: Span, s: Span, x: Span)
    requires spans != [] && spans[|spans| - 1] == open && open.to == 0
    requires forall i :: 0 <= i < |spans| - 1 ==> spans[i].to != 0
    ensures x in spans[..|spans| - 1] + [s] <==> x == s || (x in spans && x != open)
  {
    assert spans == spans[..|spans| - 1] + [open];
    if x in spans[..|spans| - 1] {
      var i :| 0 <= i < |spans| - 1 && spans[i] == x;
    }
  }

  class TimespanHistory {
    const retentionDays: nat
    const utcOffset: int
    var history: seq<Span>
    /** Every span ever accepted, purged or not. */
    ghost var log: seq<Span>
    /** Latest wall-clock instant seen. */
    ghost var seen: int

    ghost predicate Valid()
      reads this
    {
      Ordered(history, seen) && Logs(history, log, seen, RetentionSeconds(retentionDays))
    }

    constructor (retentionDays: nat, utcOffset: int)
      ensures Valid() && history == log == [] && this.retentionDays == retentionDays
    {
      this.retentionDays, this.utcOffset := retentionDays, utcOffset;
      history, log, seen := [], [], 0;
    }

    method ClockIn(ts: int, now: int)
      requires Valid() && 0 < ts <= now && seen <= now
      modifies this
      ensures Valid() && seen == now
      ensures history == ClockedIn(old(history), ts)
      ensures log == if AcceptsIn(old(history), ts) then old(log) + [Span(ts, 0)] else old(log)
    {
      hide Ordered, Logs;
      OrderedLater(history, seen, now);
      LogsLater(history, log, seen, now, RetentionSeconds(retentionDays));
      ClockedInOrdered(history, ts, now);
      seen := now;
      if |history| > 0 {
        if history[|history| - 1].to == 0 {
          return;
        }
        if history[|history| - 1].to > ts {
          return;
        }
      }
      LogsIn(history, log, ts, now, RetentionSeconds(retentionDays));
      history := history + [Span(ts, 0)];
      log := log + [Span(ts, 0)];
    }

    method Purge(now: int)
      requires forall s :: s in history ==> s.to <= now
      modifies this`history
      ensures history == Recent(old(history), now, RetentionSeconds(retentionDays))
    {
      var it, kept := 0, [];
      while it < |history|
        invariant 0 <= it <= |history| && history == old(history)
        invariant kept == Recent(history[..it], now, RetentionSeconds(retentionDays))
      {
        assert history[..it + 1][..it] == history[..it];
        if now - history[it].to > RetentionSeconds(retentionDays) {
          // erased
        } else {
          kept := kept + [history[it]];
        }
        it := it + 1;
      }
      assert history[..|history|] == history;
      history := kept;
    }

    method ClockOut(ts: int, now: int)
      requires Valid() && 0 < ts <= now && seen <= now
      modifies this
      ensures Valid() && seen == now
      ensures history == ClockedOut(old(history), ts, now, RetentionSeconds(retentionDays))
      ensures log == if AcceptsOut(old(history), ts) then Closed(old(log), ts) else old(log)
    {
      hide Ordered, Logs;
      OrderedLater(history, seen, now);
      LogsLater(history, log, seen, now, RetentionSeconds(retentionDays));
      seen := now;
      if |history| == 0 || history[|history| - 1].to != 0 {
        return;
      }
      if history[|history| - 1].from > ts {
        return;
      }
      LogsOpen(history, log, now, RetentionSeconds(retentionDays));
      ClosedOrdered(history, ts, now);
      LogsOut(history, log, ts, now, RetentionSeconds(retentionDays));
      RecentOrdered(Closed(history, ts), now, RetentionSeconds(retentionDays));
      OrderedBounds(Closed(history, ts), now);
      history := history[..|history| - 1] + [Span(history[|history| - 1].from, ts)];
      log := Closed(log, ts);
      Purge(now);
    }

    /** The number of seconds of the last nseconds during which the device was on, counted on everything ever clocked.
        */
    method GetTotalForLast(nseconds: nat, now: int) returns (r: Option<int>)
      requires Valid() && seen <= now
      ensures r == TotalForLast(history, nseconds, now, RetentionSeconds(retentionDays))
      ensures r.Some? <==> nseconds <= retentionDays * 86400 % 0x1_0000_0000
      ensures r.Some? ==> r.value == |OnSeconds(log, now - nseconds, now)| <= nseconds
    {
      hide Ordered, Logs, OnSeconds;
      if nseconds > RetentionSeconds(retentionDays) {
        return None;
      }
      OrderedLater(history, seen, now);
      LogsLater(history, log, seen, now, RetentionSeconds(retentionDays));
      TotalOverLog(history, log, nseconds, now, RetentionSeconds(retentionDays));
      OrderedSpans(history, now);
      var fromLookup := now - nseconds;
      var total := 0;
      var it := 0;
      while it < |history|
        invariant 0 <= it <= |history|
        invariant total == HistoryTotal(history[..it], fromLookup, now)
      {
        assert history[..it + 1][..it] == history[..it];
        var timespan := history[it];
        if timespan.to != 0 && timespan.to < fromLookup {
          it := it + 1;
          continue;
        }
        var start := if timespan.from < fromLookup then fromLookup else timespan.from;
        var end := if timespan.to == 0 then now else timespan.to;
        var pieces := SumOfPieces(start, end, utcOffset);
        total := total + pieces;
        it := it + 1;
      }
      assert history[..|history|] == history;
      r := Some(total);
    }
  }

  lemma LogsLater(history: seq<Span>, log: seq<Span>, now: int, later: int, retention: int)
    requires Logs(history, log, now, retention) && now <= later
    ensures Logs(history, log, later, retention)
  {
  }

  lemma LogsOpen(history: seq<Span>, log: seq<Span>, now: int, retention: int)
    requires Logs(history, log, now, retention) && Open(history)
    ensures log != []
  {
  }

  lemma OrderedBounds(history: seq<Span>, now: int)
    requires Ordered(history, now) && 0 <= now
    ensures forall s :: s in history ==> s.to <= now
  {
  }

  lemma OrderedSpans(history: seq<Span>, now: int)
    requires Ordered(history, now)
    ensures forall i :: 0 <= i < |history| ==>
      0 < history[i].from <= now && (history[i].to == 0 || history[i].from <= history[i].to <= now)
  {
  }

  /** For lookups up to the retention, the total is at most the window, equals the on-seconds of the window, and is the
      same as if no span had ever been purged. */
  lemma TotalOverLog(history: seq<Span>, log: seq<Span>, nseconds: nat, now: int, retention: int)
    requires Ordered(history, now) && Logs(history, log, now, retention) && nseconds <= retention
    ensures TotalForLast(history, nseconds, now, retention) == Some(|OnSeconds(log, now - nseconds, now)|)
    ensures |OnSeconds(log, now - nseconds, now)| <= nseconds
  {
    var lo := now - nseconds;
    TotalIsOnSeconds(history, lo, now);
    PurgeIsInvisible(history, log, lo, now, retention);
    SubsetSize(OnSeconds(log, lo, now), Interval(lo, now));
  }

  lemma SubsetSize(a: set<int>, b: set<int>)
    requires a <= b
    ensures |a| <= |b|
  {
    assert b == a + (b - a);
  }
}
