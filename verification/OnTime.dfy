/** The on-time history over whole runs of the manager: what the remainder decision counts is the time the device
    really was on. */
module OnTimes {
  import opened Series
  import opened Timespans
  import opened BatteryLatch
  import opened Devices
  import opened Managers
  import opened ManagerRuns

  function Wall(e: ManagerRuns.Event): int
  {
    match e
    case TickEvent(env) => env.at.wall
    case _ => e.at.wall
  }

  /** The wall clock starts at start or later and does not go back. */
  ghost predicate WallOrder(events: seq<ManagerRuns.Event>, start: int)
  {
    && 0 <= start
    && (forall k :: 0 <= k < |events| ==> 0 < Wall(events[k]) && start <= Wall(events[k]))
    && (forall j, k :: 0 <= j <= k < |events| ==> Wall(events[j]) <= Wall(events[k]))
  }

  /** One event's effect on the on-time history of a device: a switch, by the manager or by hand, clocks in or out,
      and a relay's report does nothing. */
  ghost predicate HistoryFollows(d: Device, d': Device, at: Moment, reported: bool)
  {
    && d'.config == d.config
    && d'.onHistory == if reported then d.onHistory else Clocked(d, d'.state, at).onHistory
  }

  function Instant(e: ManagerRuns.Event): Moment
  {
    match e
    case TickEvent(env) => env.at
    case _ => e.at
  }

  lemma EventHistory(m: Manager, e: ManagerRuns.Event, i: nat)
    requires Possible(m, e) && i < |m.devices|
    ensures HistoryFollows(m.devices[i], Next(m, e).devices[i], Instant(e), e.ReportEvent?)
  {
    hide Ready, ClockedIn, ClockedOut, Round, Aborts, Inventory, Handled;
    if e.TickEvent? {
      assert Ready(m, e.env);
      TickHistory(m, e.env, i);
    }
  }

  lemma TickHistory(m: Manager, env: Env, i: nat)
    requires Ready(m, env) && i < |m.devices|
    ensures HistoryFollows(m.devices[i], Tick(m, env).devices[i], env.at, false)
  {
    hide Round, Aborts, Inventory, ClassOf, Classes, Handled, HistoryFollows, Specific;
    UntouchedHistory(m.devices[i], env.at);
    if !Aborts(m, env) {
      RoundHandles(m, env, i);
      HandledHistory(m.devices[i], Round(m, env).devices[i], Classes(m, env)[i], Round(m, env).offloads, env);
      SpecificHistory(m.devices[i], Round(m, env).devices[i], env.at);
    }
  }

  lemma UntouchedHistory(d: Device, at: Moment)
    ensures HistoryFollows(d, d, at, false)
  {
  }

  lemma HandledHistory(d: Device, d': Device, c: Class, offloads: bool, env: Env)
    requires Handled(d, d', c, offloads, env)
    ensures HistoryFollows(d, d', env.at, false)
  {
    hide ClockedIn, ClockedOut;
  }

  lemma SpecificHistory(d: Device, d': Device, at: Moment)
    requires HistoryFollows(d, d', at, false)
    ensures HistoryFollows(d, Specific(d', at), at, false)
  {
    hide Clocked;
  }

  // ---------------------------------------------------------------- the time a device really was on

  /** Whether the device is on after k events. */
  predicate IsOn(states: seq<Manager>, i: nat, k: nat)
    requires k < |states| && i < |states[k].devices|
  {
    states[k].devices[i].state
  }

  /** Whether its history records it as on. */
  predicate Records(states: seq<Manager>, i: nat, k: nat)
    requires k < |states| && i < |states[k].devices|
  {
    Open(states[k].devices[i].onHistory)
  }

  ghost predicate HasDevice(states: seq<Manager>, events: seq<ManagerRuns.Event>, i: nat, k: nat)
  {
    k < |states| && k <= |events| && forall l :: 0 <= l <= k ==> i < |states[l].devices|
  }

  /** The device was on during the second that starts at t, as seen at instant now after k events: before the first
      event as its history says, and later while its state was on between two events. */
  ghost predicate WasOn(states: seq<Manager>, events: seq<ManagerRuns.Event>, i: nat, k: nat, now: int, t: int)
    requires HasDevice(states, events, i, k)
    decreases k
  {
    if k == 0 then OnAt(states[0].devices[i].onHistory, now, t)
    else
      || WasOn(states, events, i, k - 1, Wall(events[k - 1]), t)
      || (IsOn(states, i, k) && Wall(events[k - 1]) <= t < now)
  }

  /** The same for what the history recorded at the time. */
  ghost predicate WasRecorded(states: seq<Manager>, events: seq<ManagerRuns.Event>, i: nat, k: nat, now: int, t: int)
    requires HasDevice(states, events, i, k)
    decreases k
  {
    if k == 0 then OnAt(states[0].devices[i].onHistory, now, t)
    else
      || WasRecorded(states, events, i, k - 1, Wall(events[k - 1]), t)
      || (Records(states, i, k) && Wall(events[k - 1]) <= t < now)
  }

  /** The second falls between two events after which history and state disagree. */
  ghost predicate Disagreed(states: seq<Manager>, events: seq<ManagerRuns.Event>, i: nat, k: nat, now: int, t: int)
    requires HasDevice(states, events, i, k)
    decreases k
  {
    k > 0 && (
      || Disagreed(states, events, i, k - 1, Wall(events[k - 1]), t)
      || (Records(states, i, k) != IsOn(states, i, k) && Wall(events[k - 1]) <= t < now))
  }

  ghost predicate AgreedDuring(states: seq<Manager>, events: seq<ManagerRuns.Event>, i: nat, k: nat, lo: int, now: int)
    requires HasDevice(states, events, i, k)
  {
    forall t :: lo <= t < now ==> !Disagreed(states, events, i, k, now, t)
  }

  ghost function SecondsOn(states: seq<Manager>, events: seq<ManagerRuns.Event>, i: nat, k: nat, lo: int, now: int)
    : set<int>
    requires HasDevice(states, events, i, k)
  {
    set t | lo <= t < now && WasOn(states, events, i, k, now, t)
  }

  ghost function SecondsRecorded(states: seq<Manager>, events: seq<ManagerRuns.Event>, i: nat, k: nat, lo: int,
                                 now: int)
    : set<int>
    requires HasDevice(states, events, i, k)
  {
    set t | lo <= t < now && WasRecorded(states, events, i, k, now, t)
  }

  /** log is a full log of the device's history. */
  ghost predicate Recounts(d: Device, log: seq<Span>, now: int)
  {
    Ordered(d.onHistory, now) && Logs(d.onHistory, log, now, d.config.retention)
  }

  lemma {:induction false} OnAtSnoc(init: seq<Span>, s: Span, now: int, t: int)
    ensures OnAt(init + [s], now, t) <==> OnAt(init, now, t) || Within(s, now, t)
  {
    var all := init + [s];
    assert all[|init|] == s;
    if j :| 0 <= j < |init| && Within(init[j], now, t) {
      assert all[j] == init[j];
    }
    if j :| 0 <= j < |all| && Within(all[j], now, t) {
      assert j < |init| ==> init[j] == all[j];
    }
  }

  /** Closed spans do not depend on the present. */
  lemma OnAtClosed(spans: seq<Span>, now: int, later: int, t: int)
    requires forall j :: 0 <= j < |spans| ==> spans[j].to != 0
    ensures OnAt(spans, now, t) <==> OnAt(spans, later, t)
  {
    if j :| 0 <= j < |spans| && Within(spans[j], now, t) {
      assert Within(spans[j], later, t);
    }
    if j :| 0 <= j < |spans| && Within(spans[j], later, t) {
      assert Within(spans[j], now, t);
    }
  }

  /** How the log goes on when the device is in state on from instant w on, seen later. */
  function Continued(log: seq<Span>, was: bool, on: bool, w: int): seq<Span>
  {
    if was == on then log
    else if on then log + [Span(w, 0)]
    else if log == [] then log
    else Closed(log, w)
  }

  lemma ContinuedOnAt(log: seq<Span>, on: bool, w: int, now: int, t: int)
    requires 0 < w <= now && (forall j :: 0 <= j < |log| - 1 ==> log[j].to != 0)
    requires Open(log) ==> log[|log| - 1].from <= w
    ensures OnAt(Continued(log, Open(log), on, w), now, t) <==> OnAt(log, w, t) || (on && w <= t < now)
  {
    if Open(log) {
      var n := |log| - 1;
      var init := log[..n];
      assert log == init + [log[n]];
      OnAtSnoc(init, log[n], w, t);
      OnAtSnoc(init, log[n], now, t);
      OnAtSnoc(init, Span(log[n].from, w), now, t);
      OnAtClosed(init, w, now, t);
    } else {
      OnAtClosed(log, w, now, t);
      OnAtSnoc(log, Span(w, 0), now, t);
    }
  }

  /** What the history records after an event: a switch makes it agree with the state, and anything else leaves it as it
      was. So they agree from the first switch on until a relay reports another state. */
  lemma RecordsFollow(d: Device, d': Device, at: Moment, reported: bool)
    requires HistoryFollows(d, d', at, reported) && Ordered(d.onHistory, at.wall) && 0 < at.wall
    ensures Open(d'.onHistory) <==> if !reported && d'.state != d.state then d'.state else Open(d.onHistory)
    ensures Open(d'.onHistory) == Open(d.onHistory) ==> d'.onHistory == d.onHistory
  {
    hide Ordered, Recent;
    var w := at.wall;
    if !reported && d'.state && !d.state && !Open(d.onHistory) {
      AcceptsWhenClosed(d.onHistory, w);
    } else if !reported && d.state && !d'.state && Open(d.onHistory) {
      AcceptsWhenOpen(d.onHistory, w);
      ClosedOrdered(d.onHistory, w, w);
      RecentKeeps(Closed(d.onHistory, w), w, d.config.retention);
      AllClosed(d.onHistory, w);
    }
  }

  lemma AllClosed(history: seq<Span>, w: int)
    requires Ordered(history, w) && Open(history) && 0 < w
    ensures forall s :: s in Closed(history, w) ==> s.to != 0
  {
  }

  lemma ContinuedRecounts(d: Device, d': Device, log: seq<Span>, at: Moment, now: int, reported: bool)
    requires Recounts(d, log, at.wall) && HistoryFollows(d, d', at, reported) && 0 < at.wall <= now
    ensures Recounts(d', Continued(log, Open(d.onHistory), Open(d'.onHistory), at.wall), now)
  {
    hide Ordered, Recent, KeepsRecent, Open;
    var w, retention := at.wall, d.config.retention;
    RecordsFollow(d, d', at, reported);
    if Open(d'.onHistory) && !Open(d.onHistory) {
      AcceptsWhenClosed(d.onHistory, w);
      ClockedInOrdered(d.onHistory, w, w);
      LogsIn(d.onHistory, log, w, w, retention);
    } else if Open(d.onHistory) && !Open(d'.onHistory) {
      AcceptsWhenOpen(d.onHistory, w);
      LogsOpen(d.onHistory, log, w, retention);
      ClosedOrdered(d.onHistory, w, w);
      LogsOut(d.onHistory, log, w, w, retention);
      RecentOrdered(Closed(d.onHistory, w), w, retention);
    }
    OrderedLater(d'.onHistory, w, now);
    LogsLater(d'.onHistory, Continued(log, Open(d.onHistory), Open(d'.onHistory), w), w, now, retention);
  }

  lemma AcceptsWhenClosed(history: seq<Span>, w: int)
    requires Ordered(history, w) && !Open(history)
    ensures AcceptsIn(history, w)
  {
  }

  lemma AcceptsWhenOpen(history: seq<Span>, w: int)
    requires Ordered(history, w) && Open(history)
    ensures AcceptsOut(history, w)
  {
  }

  lemma DeviceThroughout(states: seq<Manager>, events: seq<ManagerRuns.Event>, i: nat, k: nat)
    requires IsRun(states, events) && i < |states[0].devices| && k <= |events|
    ensures HasDevice(states, events, i, k)
  {
    hide Next, Possible;
    forall l | 0 <= l <= k
      ensures i < |states[l].devices|
    {
      SameThroughout(states, events, l);
    }
  }

  /** Over every run, whatever relays report: the device's purged history has a full log, and that log tells exactly the
      seconds the history recorded as on. */
  lemma {:induction false} HistoryOverRuns(states: seq<Manager>, events: seq<ManagerRuns.Event>, start: int, i: nat,
                                           k: nat, now: int) returns (log: seq<Span>)
    requires IsRun(states, events) && WallOrder(events, start) && i < |states[0].devices| && k <= |events|
    requires Ordered(states[0].devices[i].onHistory, start) && start <= now
    requires k > 0 ==> Wall(events[k - 1]) <= now
    ensures HasDevice(states, events, i, k) && Recounts(states[k].devices[i], log, now)
    ensures forall t :: OnAt(log, now, t) <==> WasRecorded(states, events, i, k, now, t)
    decreases k
  {
    hide Next, Possible, Ordered, KeepsRecent, Clocked, OnAt, Open;
    DeviceThroughout(states, events, i, k);
    if k == 0 {
      log := states[0].devices[i].onHistory;
      StartRecounts(states[0].devices[i], start, now);
    } else {
      var d, d', at := states[k - 1].devices[i], states[k].devices[i], Instant(events[k - 1]);
      var before := HistoryOverRuns(states, events, start, i, k - 1, at.wall);
      assert Possible(states[k - 1], events[k - 1]) && states[k] == Next(states[k - 1], events[k - 1]);
      EventHistory(states[k - 1], events[k - 1], i);
      log := Continued(before, Open(d.onHistory), Open(d'.onHistory), at.wall);
      ContinuedRecounts(d, d', before, at, now, events[k - 1].ReportEvent?);
      RecountsOpen(d, before, at.wall);
      forall t
        ensures OnAt(log, now, t) <==> WasRecorded(states, events, i, k, now, t)
      {
        ContinuedOnAt(before, Open(d'.onHistory), at.wall, now, t);
      }
    }
  }

  lemma StartRecounts(d: Device, start: int, now: int)
    requires Ordered(d.onHistory, start) && start <= now
    ensures Recounts(d, d.onHistory, now)
  {
  }

  lemma RecountsOpen(d: Device, log: seq<Span>, now: int)
    requires Recounts(d, log, now)
    ensures (Open(log) <==> Open(d.onHistory)) && (Open(log) ==> log[|log| - 1].from <= now)
    ensures forall j :: 0 <= j < |log| - 1 ==> log[j].to != 0
  {
  }

  /** Nothing is on, recorded or disagreed about in the future. */
  lemma {:induction false} OnlyPast(states: seq<Manager>, events: seq<ManagerRuns.Event>, start: int, i: nat, k: nat,
                                    now: int, t: int)
    requires WallOrder(events, start) && HasDevice(states, events, i, k)
    requires Ordered(states[0].devices[i].onHistory, start) && start <= now <= t
    requires k > 0 ==> Wall(events[k - 1]) <= now
    ensures !WasOn(states, events, i, k, now, t) && !WasRecorded(states, events, i, k, now, t)
    ensures !Disagreed(states, events, i, k, now, t)
    decreases k
  {
    if k > 0 {
      OnlyPast(states, events, start, i, k - 1, Wall(events[k - 1]), t);
    }
  }

  /** Recorded and real on-time differ exactly in the seconds in which history and state disagreed. */
  lemma {:induction false} DifferIffDisagreed(states: seq<Manager>, events: seq<ManagerRuns.Event>, start: int, i: nat,
                                              k: nat, now: int, t: int)
    requires WallOrder(events, start) && HasDevice(states, events, i, k)
    requires Ordered(states[0].devices[i].onHistory, start) && start <= now && (k > 0 ==> Wall(events[k - 1]) <= now)
    ensures (WasRecorded(states, events, i, k, now, t) <==> WasOn(states, events, i, k, now, t))
       <==> !Disagreed(states, events, i, k, now, t)
    decreases k
  {
    hide Ordered, OnAt, IsOn, Records;
    if k > 0 {
      DifferIffDisagreed(states, events, start, i, k - 1, Wall(events[k - 1]), t);
      if Wall(events[k - 1]) <= t {
        OnlyPast(states, events, start, i, k - 1, Wall(events[k - 1]), t);
      }
    }
  }

  /** Without a relay that reports another state than it was commanded, history and state never disagree. */
  lemma {:induction false} AgreeWhileReportsDo(states: seq<Manager>, events: seq<ManagerRuns.Event>, start: int, i: nat,
                                               k: nat)
    requires IsRun(states, events) && WallOrder(events, start) && i < |states[0].devices| && k <= |events|
    requires Ordered(states[0].devices[i].onHistory, start) && HasDevice(states, events, i, k)
    requires Records(states, i, 0) == IsOn(states, i, 0)
    requires forall l :: 0 <= l < k && events[l].ReportEvent? ==> IsOn(states, i, l + 1) == IsOn(states, i, l)
    ensures Records(states, i, k) == IsOn(states, i, k)
    decreases k
  {
    hide Next, Possible, Ordered, Clocked, Open;
    if k > 0 {
      AgreeWhileReportsDo(states, events, start, i, k - 1);
      var d, d', at := states[k - 1].devices[i], states[k].devices[i], Instant(events[k - 1]);
      var log := HistoryOverRuns(states, events, start, i, k - 1, at.wall);
      assert Possible(states[k - 1], events[k - 1]) && states[k] == Next(states[k - 1], events[k - 1]);
      EventHistory(states[k - 1], events[k - 1], i);
      RecordsFollow(d, d', at, events[k - 1].ReportEvent?);
    }
  }

  /** A time-range device that the tick may switch, inside its remainder range. */
  ghost predicate InRemainder(d: Device, s: Schedules, at: Moment)
  {
    && d.kind != BatteryDevice && d.config.minOnForLast <= d.config.retention && !d.manual && !s.force && s.remainder
    && if d.state then
         at.mono - d.lastOn >= d.config.minOn && (d.config.maxOn == 0 || at.mono - d.lastOn <= d.config.maxOn)
       else at.mono - d.lastOff >= d.config.minOff
  }

  /** The remainder decision over every run: in a tick, a device in its remainder range is wanted on if and only if its
      history recorded it as on for less than min_on_time seconds of the last min_on_for_last, whatever was purged; and
      these are the seconds it really was on if and only if history and state agreed all the time. */
  lemma RemainderOverRuns(states: seq<Manager>, events: seq<ManagerRuns.Event>, start: int, i: nat, k: nat)
    requires IsRun(states, events) && WallOrder(events, start) && k < |events| && HasDevice(states, events, i, k)
    requires Ordered(states[0].devices[i].onHistory, start)
    requires events[k].TickEvent? && i < |events[k].env.schedules| == |states[k].devices|
    requires InRemainder(states[k].devices[i], events[k].env.schedules[i], events[k].env.at)
    ensures var d, now := states[k].devices[i], events[k].env.at.wall;
            var lo := now - d.config.minOnForLast;
            && (Wanted(states[k], i, events[k].env) == Some(On)
                <==> |SecondsRecorded(states, events, i, k, lo, now)| < d.config.minOnTime)
            && (SecondsRecorded(states, events, i, k, lo, now) == SecondsOn(states, events, i, k, lo, now)
                <==> AgreedDuring(states, events, i, k, lo, now))
  {
    hide Next, Possible, Ordered, Logs, OnAt, WasOn, WasRecorded, Disagreed, TimeRangeWanted;
    var d, env := states[k].devices[i], events[k].env;
    var now := env.at.wall;
    var lo := now - d.config.minOnForLast;
    assert Wall(events[k]) == now;
    var log := HistoryOverRuns(states, events, start, i, k, now);
    assert OnSeconds(log, lo, now) == SecondsRecorded(states, events, i, k, lo, now);
    RemainderServesOnTime(d, log, env.schedules[i], env.at);
    SameSeconds(states, events, start, i, k, lo, now);
  }

  lemma SameSeconds(states: seq<Manager>, events: seq<ManagerRuns.Event>, start: int, i: nat, k: nat, lo: int, now: int)
    requires WallOrder(events, start) && HasDevice(states, events, i, k)
    requires Ordered(states[0].devices[i].onHistory, start) && start <= now && (k > 0 ==> Wall(events[k - 1]) <= now)
    ensures SecondsRecorded(states, events, i, k, lo, now) == SecondsOn(states, events, i, k, lo, now)
       <==> AgreedDuring(states, events, i, k, lo, now)
  {
    hide Ordered, WasOn, WasRecorded, Disagreed;
    forall t
      ensures (WasRecorded(states, events, i, k, now, t) <==> WasOn(states, events, i, k, now, t))
         <==> !Disagreed(states, events, i, k, now, t)
    {
      DifferIffDisagreed(states, events, start, i, k, now, t);
    }
    var recorded, actual := SecondsRecorded(states, events, i, k, lo, now), SecondsOn(states, events, i, k, lo, now);
    if recorded == actual {
      forall t | lo <= t < now
        ensures !Disagreed(states, events, i, k, now, t)
      {
        assert t in recorded <==> t in actual;
      }
    } else {
      var t :| t in recorded <==> t !in actual;
      assert !AgreedDuring(states, events, i, k, lo, now);
    }
  }

  /** The difference happens: a device switched on by hand at 10, whose relay goes off by itself at 20, is recorded as
      on at 50. */
  lemma OffTimeIsCounted(battery: BatteryState, policy: BatteryConfig)
    returns (states: seq<Manager>, events: seq<ManagerRuns.Event>)
    ensures IsRun(states, events) && |events| == 2 && WallOrder(events, 0) && HasDevice(states, events, 0, 2)
    ensures states[0].devices[0].onHistory == [] && !IsOn(states, 0, 0)
    ensures WasRecorded(states, events, 0, 2, 100, 50) && !WasOn(states, events, 0, 2, 100, 50)
  {
    hide Tick, Ready, ClockedOut, Sense, Ordered, Within;
    var config := DeviceConfig(true, true, false, 1.0, false, 0, 0, 0, 0, 0, 0, 0);
    var off := Device(1, TimeRangeDevice, config, false, false, 0, false, 0, 0, 0, 0.0, []);
    var on := SetByHand(off, true, 0, true, Moment(10, 10));
    var gone := Reported(on, false, false);
    events := [ManualEvent(Moment(10, 10), 0, true, 0, true), ReportEvent(Moment(20, 20), 0, false, false)];
    states := [Manager([off], battery, policy, 0), Manager([on], battery, policy, 0),
               Manager([gone], battery, policy, 0)];
    assert [off][0 := on] == [on] && [on][0 := gone] == [gone];
    assert on.onHistory == [Span(10, 0)];
  }
}
