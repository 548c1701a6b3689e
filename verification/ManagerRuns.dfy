/** What the manager guarantees for the battery in a tick, and for the devices over whole runs. */
module ManagerRuns {
  import opened Series
  import Timespans
  import opened HigherFrequencies
  import opened Statistics
  import opened BatteryLatch
  import opened Devices
  import opened Algos
  import opened Managers

  // ---------------------------------------------------------------- BACKUP

  /** The battery's device takes part in the tick, can be controlled, and its relay answers. */
  ghost predicate BatteryUnderControl(m: Manager, env: Env)
    requires Inventory(m.devices)
  {
    var d := BatteryDeviceOf(m.devices);
    d.config.enabled && !d.offline && d.config.hasControl && BATTERY_ID !in env.unreachable && m.battery.soc != -1.0
  }

  lemma BatteryIsForcedOn(m: Manager, env: Env)
    requires Ready(m, env) && !Aborts(m, env) && BatteryUnderControl(m, env) && m.battery.socState == Backup
    ensures Classes(m, env)[Find(m.devices, BATTERY_ID)] == ForcedTo(true)
  {
    hide Devices.IsOnBattery, TimeRangeWanted;
    var b := Find(m.devices, BATTERY_ID);
    assert ClassOf(m, b, env) == Some(ForcedTo(true));
  }

  /** A device other than a controller counts as being on the battery only while the battery device is not on the
      grid. */
  lemma OnlyControllersOnBattery(m: Manager, env: Env, i: nat)
    requires Ready(m, env) && !Aborts(m, env) && i < |m.devices| && Classes(m, env)[i] == OnBattery
    requires m.devices[i].kind != ControllerDevice
    ensures !BatteryDeviceOf(m.devices).state
  {
    hide Wanted;
    assert ClassOf(m, i, env) == Some(OnBattery);
  }

  lemma ForcedBatteryChanges(m: Manager, env: Env)
    requires Ready(m, env) && !Aborts(m, env) && BatteryUnderControl(m, env) && m.battery.socState == Backup
    requires !BatteryDeviceOf(m.devices).state
    ensures ForcedRound(m, env).changed
  {
    hide Aborts, ForcedPass, ClassOf;
    BatteryIsForcedOn(m, env);
    var b := Find(m.devices, BATTERY_ID);
    var picks, wanted := Select(env.order, Classes(m, env), ForcedRole), ForcedStates(Classes(m, env));
    ForcedChanged(m.devices, picks, wanted, env.unreachable, env.at);
    assert b in picks;
    var k :| 0 <= k < |picks| && picks[k] == b;
    assert CountsAsChange(m.devices[picks[k]], wanted[picks[k]], env.unreachable);
  }

  /** BACKUP protects the battery through a whole tick: the battery device ends on the grid unless a decision throws
      (and it was not there already), and if an offload pass runs at all, no device but a controller is in the battery
      offload pass. */
  lemma BackupProtectsBattery(m: Manager, env: Env)
    requires Ready(m, env) && BatteryUnderControl(m, env) && m.battery.socState == Backup
    ensures Tick(m, env).devices[Find(m.devices, BATTERY_ID)].state
       <==> !Aborts(m, env) || BatteryDeviceOf(m.devices).state
    ensures !Aborts(m, env) && Round(m, env).offloads ==>
      forall i :: 0 <= i < |m.devices| && Classes(m, env)[i] == OnBattery ==> m.devices[i].kind == ControllerDevice
  {
    hide Aborts, Obey, ForcedRound, OffloadRound, ClassOf;
    if !Aborts(m, env) {
      BackupForcesGrid(m, env);
      if Round(m, env).offloads {
        OffloadSparesBattery(m, env);
      }
    }
  }

  lemma BackupForcesGrid(m: Manager, env: Env)
    requires Ready(m, env) && !Aborts(m, env) && BatteryUnderControl(m, env) && m.battery.socState == Backup
    ensures Tick(m, env).devices[Find(m.devices, BATTERY_ID)].state
  {
    hide Aborts, Obey, ForcedRound, OffloadRound, ClassOf;
    var b := Find(m.devices, BATTERY_ID);
    BatteryIsForcedOn(m, env);
    RoundHandles(m, env, b);
    ObeyKeepsIdentity(m.devices[b], true, env.unreachable, env.at);
  }

  lemma OffloadSparesBattery(m: Manager, env: Env)
    requires Ready(m, env) && !Aborts(m, env) && BatteryUnderControl(m, env) && m.battery.socState == Backup
    requires Round(m, env).offloads
    ensures forall i :: 0 <= i < |m.devices| && Classes(m, env)[i] == OnBattery ==>
      m.devices[i].kind == ControllerDevice
  {
    hide Aborts, Obey, ForcedRound, OffloadRound, ClassOf;
    if !BatteryDeviceOf(m.devices).state {
      ForcedBatteryChanges(m, env);
    }
    forall i | 0 <= i < |m.devices| && Classes(m, env)[i] == OnBattery
      ensures m.devices[i].kind == ControllerDevice
    {
      if m.devices[i].kind != ControllerDevice {
        OnlyControllersOnBattery(m, env, i);
      }
    }
  }

  // ---------------------------------------------------------------- offload guarantee

  /** When the offload passes run, the forced pass has switched nothing and its grid power is what the forced devices
      on the grid draw, whatever the order they came in. */
  lemma QuietRound(m: Manager, env: Env)
    requires Ready(m, env) && !Aborts(m, env) && Round(m, env).offloads
    ensures var f := ForcedRound(m, env);
            && f.devices == m.devices
            && f.grid == PickSum(GridWeights(m.devices), Select(env.order, Classes(m, env), ForcedRole))
  {
    hide Inventory, Aborts, ClassOf, ForcedPass, GridWeights, PickSum, OffloadRound;
    QuietForcedPass(m.devices, Select(env.order, Classes(m, env), ForcedRole), ForcedStates(Classes(m, env)),
                    env.unreachable, env.at);
  }

  /** The grid pass decides on the devices as they were at the start of the tick. */
  lemma GridPassDecides(m: Manager, env: Env)
    requires Ready(m, env) && !Aborts(m, env) && Round(m, env).offloads
    ensures var o, grid := Round(m, env), Select(Priorities(|m.devices|), Classes(m, env), GridRole);
            && o.gridSelected == GridDecisions(m.devices, grid, o.forced.grid, env.stats, env.margins)
            && o.afterGrid == Applied(m.devices, grid, o.gridSelected, env.unreachable, env.at)
  {
    hide Inventory, Aborts, ClassOf, GridWeights, PickSum, GridDecisions, BatterySelection, AnyChange, Applied, Select,
      ForcedRound;
    QuietRound(m, env);
  }

  /** A device up for grid offload that the tick turns on was selected by the grid pass. */
  lemma SwitchedOnIsSelected(m: Manager, env: Env, k: nat)
    requires Ready(m, env) && !Aborts(m, env)
    requires k < |Select(Priorities(|m.devices|), Classes(m, env), GridRole)|
    requires var i := Select(Priorities(|m.devices|), Classes(m, env), GridRole)[k];
             !m.devices[i].state && Round(m, env).devices[i].state
    ensures Round(m, env).offloads
    ensures |Round(m, env).gridSelected| == |Select(Priorities(|m.devices|), Classes(m, env), GridRole)|
    ensures Round(m, env).gridSelected[k]
  {
    hide Inventory, Aborts, ClassOf, OffloadRound, GridDecisions, AnyChange, Applied, Select, ForcedRound;
    var classes, o := Classes(m, env), Round(m, env);
    var grid := Select(Priorities(|m.devices|), classes, GridRole);
    var i := grid[k];
    assert i in grid;
    RoundHandles(m, env, i);
    if o.offloads {
      GridPassDecides(m, env);
      AppliedAt(m.devices, grid, o.gridSelected, env.unreachable, env.at, k);
      BatteryPassSpares(m, env, i);
    }
  }

  lemma BatteryPassSpares(m: Manager, env: Env, i: nat)
    requires Ready(m, env) && !Aborts(m, env) && Round(m, env).offloads && i < |m.devices|
    requires Classes(m, env)[i] == OnGrid
    ensures Round(m, env).devices[i] == Round(m, env).afterGrid[i]
  {
    hide Inventory, Aborts, ClassOf, GridDecisions, BatterySelection, AnyChange, Applied, ForcedRound;
    var classes, o := Classes(m, env), Round(m, env);
    var battery := Select(Priorities(|m.devices|), classes, BatteryRole);
    assert i !in battery;
    AppliedElsewhere(o.afterGrid, battery, o.batterySelected, env.unreachable, env.at, i);
  }

  /** Device i is pick k of the grid pass, and selected by it. */
  ghost predicate GridPick(m: Manager, env: Env, i: nat, k: nat)
    requires Ready(m, env) && !Aborts(m, env)
  {
    var grid, selected := Select(Priorities(|m.devices|), Classes(m, env), GridRole), Round(m, env).gridSelected;
    k < |grid| == |selected| && grid[k] == i && selected[k]
  }

  /** What pick k of the grid pass needs, in terms of the devices at the start of the tick: the consumption of the
      forced devices that are on and not on the battery, of the picks selected before it, its own, and the export
      margin. */
  ghost function TickNeed(m: Manager, env: Env, k: nat, exportMargin: real): real
    requires Ready(m, env) && !Aborts(m, env) && exists i :: GridPick(m, env, i, k)
  {
    NeededPower(m.devices, Select(Priorities(|m.devices|), Classes(m, env), GridRole), Round(m, env).gridSelected, k,
                PickSum(GridWeights(m.devices), Select(env.order, Classes(m, env), ForcedRole)), exportMargin)
  }

  /** The offload guarantee for a tick: when the tick turns on a device that was up for grid offload, the power it
      needs was, if within the buckets, available in at least the share precision of the samples its window holds. */
  lemma TickOffloadGuarantee(m: Manager, env: Env, bounds: seq<real>, times: Statistics.Times, exportMargin: real,
                             stream: seq<real>, i: nat) returns (k: nat)
    requires Ready(m, env) && !Aborts(m, env) && i < |m.devices| && Ascending(bounds)
    requires env.stats == Observed(bounds, times, exportMargin, stream)
    requires Classes(m, env)[i] == OnGrid && !m.devices[i].state && Round(m, env).devices[i].state
    ensures GridPick(m, env, i, k)
    ensures var need := TickNeed(m, env, k, exportMargin);
            need <= bounds[|bounds| - 1] ==>
              HadPower(stream, times, m.devices[i].config.minOn, need, env.margins.precision)
  {
    hide Inventory, Aborts, ClassOf, Obey, Applied, GridDecisions, BatterySelection, AnyChange, NeededPower, HadPower,
      PickSum, GridWeights, ForcedPass, ForcedRound, OffloadRound;
    var o, grid := Round(m, env), Select(Priorities(|m.devices|), Classes(m, env), GridRole);
    k :| 0 <= k < |grid| && grid[k] == i;
    SwitchedOnIsSelected(m, env, k);
    QuietRound(m, env);
    GridPassDecides(m, env);
    OffloadGuarantee(m.devices, grid, o.forced.grid, bounds, times, exportMargin, stream, env.margins, k);
  }

  /** A second of 500 watts predicts a surplus of 50 watts with certainty. */
  lemma SurplusPredicted(stats: Snapshot)
    requires stats == Observed([0.0, 100.0], Statistics.Times(1, 1, 1, 1), 0.0, [500.0])
    ensures stats.bounds != [] && Ascending(stats.bounds) && stats.Prediction(0, 50.0) == Some(1.0)
  {
    assert Ascending([0.0, 100.0]);
    FrequencySandwich([0.0, 100.0], 0.0, 100.0, 100.0, [500.0], 50.0);
    assert [500.0][..0] == [];
    assert CountAtLeast([500.0], 50.0) == 1 && CountAtLeast([500.0], 150.0) == 1;
  }

  lemma {:induction false} NoPick(order: seq<nat>, classes: seq<Class>, r: Role)
    requires Picks(order, |classes|) && forall k :: 0 <= k < |order| ==> !Plays(classes[order[k]], r)
    ensures Select(order, classes, r) == []
  {
    if order != [] {
      NoPick(order[..|order| - 1], classes, r);
    }
  }

  lemma SelectSnoc(order: seq<nat>, classes: seq<Class>, r: Role)
    requires Picks(order, |classes|) && order != []
    ensures var n := |order| - 1;
            && Picks(order[..n], |classes|)
            && Select(order, classes, r)
               == Select(order[..n], classes, r) + if Plays(classes[order[n]], r) then [order[n]] else []
  {
    hide Plays;
  }

  lemma {:induction false} OnlyPick(order: seq<nat>, classes: seq<Class>, r: Role, k: nat)
    requires Picks(order, |classes|) && k < |order| && Plays(classes[order[k]], r)
    requires forall l :: 0 <= l < |order| && l != k ==> !Plays(classes[order[l]], r)
    ensures Select(order, classes, r) == [order[k]]
  {
    hide Select, Plays;
    var n := |order| - 1;
    SelectSnoc(order, classes, r);
    if k == n {
      NoPick(order[..n], classes, r);
    } else {
      OnlyPick(order[..n], classes, r, k);
    }
  }

  lemma NothingForced(m: Manager, env: Env)
    requires Ready(m, env) && !Aborts(m, env) && Select(env.order, Classes(m, env), ForcedRole) == []
    requires CooledDown(m, env)
    ensures Round(m, env).offloads && Round(m, env).forced == Forced(m.devices, false, 0.0, 0.0, 0.0)
  {
    hide Inventory, Aborts, OffloadRound;
  }

  /** A heater up for grid offload beside an unused battery, after a second of surplus. */
  lemma OfferedHeater(battery: BatteryState, policy: BatteryConfig) returns (m: Manager, env: Env)
    ensures Ready(m, env) && !Aborts(m, env) && CooledDown(m, env) && Classes(m, env) == [OnGrid, Ignored]
    ensures m.battery == battery && m.batteryConfig == policy && |m.devices| == 2 && env.unreachable == {}
    ensures var d := m.devices[0];
            !d.state && d.config.hasControl && d.config.minOn == 0 && Consumption(d) == 50.0
    ensures env.stats == Observed([0.0, 100.0], Statistics.Times(1, 1, 1, 1), 0.0, [500.0])
    ensures env.margins.precision == 0.9
  {
    hide BatteryWanted, Inventory, Observed, Snapshot.Prediction, Timespans.TotalForLast;
    var config := DeviceConfig(true, true, false, 50.0, false, 0, 0, 0, 0, 0, 0, 0);
    var heater := Device(1, TimeRangeDevice, config, false, false, 0, false, 0, 0, 0, 0.0, []);
    var passive :=
      Device(BATTERY_ID, BatteryDevice, config.(enabled := false), false, false, 0, false, 0, 0, 0, 0.0, []);
    m := Manager([heater, passive], battery, policy, 0);
    var s, none := Schedules(false, false, true), Schedules(false, false, false);
    env := Env(Moment(100, 100), [s, none], {}, false, false, [0, 1],
               Observed([0.0, 100.0], Statistics.Times(1, 1, 1, 1), 0.0, [500.0]), Margins(0.0, 0.9), 0);
    PairInventory(heater, passive);
    SurplusPredicted(env.stats);
    assert env.order[0] == 0 && env.order[1] == 1;
    assert ClassOf(m, 0, env) == Some(OnGrid) && ClassOf(m, 1, env) == Some(Ignored);
  }

  /** The guarantee is about something: there is a tick that turns on a device up for grid offload. */
  lemma OffloadHappens(battery: BatteryState, policy: BatteryConfig) returns (m: Manager, env: Env)
    ensures Ready(m, env) && !Aborts(m, env) && m.battery == battery && m.batteryConfig == policy
    ensures env.stats == Observed([0.0, 100.0], Statistics.Times(1, 1, 1, 1), 0.0, [500.0])
    ensures env.margins.precision == 0.9
    ensures Classes(m, env)[0] == OnGrid && !m.devices[0].state && Round(m, env).devices[0].state
    ensures GridPick(m, env, 0, 0) && TickNeed(m, env, 0, 0.0) == 50.0
  {
    hide Select, Inventory, GridDecisions, Applied, AnyChange, BatterySelection, ForcedRound, OffloadRound,
      Snapshot.Prediction, Observed, ForcedPass, Round, Aborts, ClassOf, CooledDown, Consumption;
    m, env := OfferedHeater(battery, policy);
    SurplusPredicted(env.stats);
    NoPick(env.order, Classes(m, env), ForcedRole);
    OnlyPick(Priorities(2), Classes(m, env), GridRole, 0);
    NothingForced(m, env);
    GridPassDecides(m, env);
    var selected := Round(m, env).gridSelected;
    GridDecisionAt(m.devices, [0], 0.0, env.stats, env.margins, 0);
    assert [0][..0] == [];
    AppliedAt(m.devices, [0], selected, env.unreachable, env.at, 0);
    BatteryPassSpares(m, env, 0);
  }

  // ---------------------------------------------------------------- runs

  /** Everything that happens to the devices. A relay may report any state, whatever it was commanded. */
  datatype Event =
    | TickEvent(env: Env)
    | ManualEvent(at: Moment, device: nat, state: bool, timeout: int, answers: bool)
    | AutoEvent(at: Moment, device: nat)
    | ReportEvent(at: Moment, device: nat, state: bool, byHand: bool)
    | MeterEvent(at: Moment, device: nat, power: real)
    | ReachEvent(at: Moment, device: nat, offline: bool)
    | VoltmeterEvent(at: Moment, reading: Reading)

  function Time(e: Event): int
  {
    match e
    case TickEvent(env) => env.at.mono
    case _ => e.at.mono
  }

  /** A command, report or measurement concerning one device. */
  function DeviceAfter(d: Device, e: Event): Device
  {
    match e
    case ManualEvent(at, _, state, timeout, answers) => SetByHand(d, state, timeout, answers, at)
    case AutoEvent(_, _) => SetToAuto(d)
    case ReportEvent(_, _, state, byHand) => Reported(d, state, byHand)
    case MeterEvent(_, _, power) => d.(power := power)
    case ReachEvent(_, _, offline) => d.(offline := offline)
    case _ => d
  }

  lemma DeviceAfterSame(d: Device, e: Event)
    ensures DeviceAfter(d, e).id == d.id && DeviceAfter(d, e).kind == d.kind && DeviceAfter(d, e).config == d.config
  {
  }

  ghost predicate Possible(m: Manager, e: Event)
  {
    match e
    case TickEvent(env) => Ready(m, env)
    case VoltmeterEvent(_, _) => true
    case _ => e.device < |m.devices|
  }

  ghost function Next(m: Manager, e: Event): (r: Manager)
    requires Possible(m, e)
    ensures SameDevices(m.devices, r.devices)
  {
    match e
    case TickEvent(env) => Tick(m, env)
    case VoltmeterEvent(_, reading) => m.(battery := Sense(m.battery, m.batteryConfig, reading))
    case _ =>
      DeviceAfterSame(m.devices[e.device], e);
      m.(devices := m.devices[e.device := DeviceAfter(m.devices[e.device], e)])
  }

  /** A run: states[k] leads to states[k + 1] by events[k], and time does not go back. */
  ghost predicate IsRun(states: seq<Manager>, events: seq<Event>)
  {
    && |states| == |events| + 1
    && (forall k :: 0 <= k < |events| ==> Possible(states[k], events[k]) && states[k + 1] == Next(states[k], events[k]))
    && (forall j, k :: 0 <= j <= k < |events| ==> Time(events[j]) <= Time(events[k]))
  }

  /** One event's effect on the switching clocks of a device: they follow every switch, by the manager or by hand, but
      not what a relay reports. */
  ghost predicate ClocksFollow(d: Device, d': Device, now: int, reported: bool)
  {
    && d'.config == d.config && d'.kind == d.kind
    && (if !reported && !d.state && d'.state then d'.lastOn == now else d'.lastOn == d.lastOn)
    && (if !reported && d.state && !d'.state then d'.lastOff == now else d'.lastOff == d.lastOff)
  }

  lemma EventClocks(m: Manager, e: Event, i: nat)
    requires Possible(m, e) && i < |m.devices| && m.devices[i].kind != BatteryDevice
    ensures ClocksFollow(m.devices[i], Next(m, e).devices[i], Time(e), e.ReportEvent?)
  {
    hide Tick, Ready;
    if e.TickEvent? {
      assert Ready(m, e.env);
      TickTimely(m, e.env, i);
    }
  }

  /** Time cannot be behind a device's own clocks at the start. */
  ghost predicate StartsBefore(m: Manager, i: nat, events: seq<Event>)
    requires i < |m.devices|
  {
    forall k :: 0 <= k < |events| ==>
      && m.devices[i].lastOn <= Time(events[k]) && m.devices[i].lastOff <= Time(events[k])
      && m.lastChange <= Time(events[k])
  }

  lemma {:induction false} SameThroughout(states: seq<Manager>, events: seq<Event>, k: nat)
    requires IsRun(states, events) && k <= |events|
    ensures SameDevices(states[0].devices, states[k].devices)
  {
    hide Next, Possible;
    if k > 0 {
      SameThroughout(states, events, k - 1);
    }
  }

  ghost predicate TurnsOn(states: seq<Manager>, i: nat, j: nat)
    requires j + 1 < |states| && i < |states[j].devices| && i < |states[j + 1].devices|
  {
    !states[j].devices[i].state && states[j + 1].devices[i].state
  }

  ghost predicate TurnsOff(states: seq<Manager>, i: nat, j: nat)
    requires j + 1 < |states| && i < |states[j].devices| && i < |states[j + 1].devices|
  {
    states[j].devices[i].state && !states[j + 1].devices[i].state
  }

  /** A device's clocks never fall behind an earlier switch, by the manager or by hand, whatever relays report. */
  lemma {:induction false} ClocksCover(states: seq<Manager>, events: seq<Event>, i: nat, j: nat, k: nat)
    requires IsRun(states, events) && i < |states[0].devices| && states[0].devices[i].kind != BatteryDevice
    requires j < k <= |events| && StartsBefore(states[0], i, events)
    ensures |states[j].devices| == |states[j + 1].devices| == |states[k].devices| == |states[0].devices|
    ensures TurnsOn(states, i, j) && !events[j].ReportEvent? ==> Time(events[j]) <= states[k].devices[i].lastOn
    ensures TurnsOff(states, i, j) && !events[j].ReportEvent? ==> Time(events[j]) <= states[k].devices[i].lastOff
    decreases k
  {
    hide Next, Possible;
    SameThroughout(states, events, k - 1);
    SameThroughout(states, events, k);
    SameThroughout(states, events, j);
    SameThroughout(states, events, j + 1);
    assert Possible(states[k - 1], events[k - 1]);
    EventClocks(states[k - 1], events[k - 1], i);
    if j < k - 1 {
      ClocksCover(states, events, i, j, k - 1);
    }
  }

  /** Minimum-time safety over every interleaving of ticks, manual commands, automatic resets, measurements and
      arbitrary relay reports: when the manager switches a time-range device it is automatic; it switches it off at
      least minOn after every earlier switch-on, and on at least minOff after every earlier switch-off, by itself or
      by hand. */
  lemma MinTimeSafety(states: seq<Manager>, events: seq<Event>, i: nat, j: nat, k: nat)
    requires IsRun(states, events) && i < |states[0].devices| && states[0].devices[i].kind != BatteryDevice
    requires j <= k < |events| && events[k].TickEvent? && StartsBefore(states[0], i, events)
    ensures |states[j].devices| == |states[j + 1].devices| == |states[0].devices|
    ensures |states[k].devices| == |states[k + 1].devices| == |states[0].devices|
    ensures TurnsOn(states, i, k) || TurnsOff(states, i, k) ==> !states[k].devices[i].manual
    ensures j < k && TurnsOn(states, i, j) && !events[j].ReportEvent? && TurnsOff(states, i, k) ==>
      Time(events[k]) - Time(events[j]) >= states[0].devices[i].config.minOn
    ensures j < k && TurnsOff(states, i, j) && !events[j].ReportEvent? && TurnsOn(states, i, k) ==>
      Time(events[k]) - Time(events[j]) >= states[0].devices[i].config.minOff
  {
    hide Tick, Ready;
    SameThroughout(states, events, k);
    SameThroughout(states, events, k + 1);
    if j < k {
      ClocksCover(states, events, i, j, k);
    }
    assert Possible(states[k], events[k]);
    TickTimely(states[k], events[k].env, i);
  }

  // ---------------------------------------------------------------- maximum time

  /** Event j is the last switch-on of device i before state k. */
  ghost predicate LastSwitchOn(states: seq<Manager>, i: nat, j: nat, k: nat)
  {
    && j < k < |states| && (forall l :: j <= l <= k ==> i < |states[l].devices|)
    && TurnsOn(states, i, j) && forall l :: j < l < k ==> !TurnsOn(states, i, l)
  }

  /** A device's on-clock is never ahead of its last switch-on, and exact unless a relay turned on by itself. */
  lemma {:induction false} LastOnIsLastSwitchOn(states: seq<Manager>, events: seq<Event>, i: nat, j: nat, k: nat)
    requires IsRun(states, events) && i < |states[0].devices| && states[0].devices[i].kind != BatteryDevice
    requires LastSwitchOn(states, i, j, k) && StartsBefore(states[0], i, events)
    ensures states[k].devices[i].lastOn <= Time(events[j])
    ensures !events[j].ReportEvent? ==> states[k].devices[i].lastOn == Time(events[j])
    decreases k
  {
    hide Next, Possible;
    SameThroughout(states, events, k - 1);
    assert Possible(states[k - 1], events[k - 1]);
    EventClocks(states[k - 1], events[k - 1], i);
    assert states[k] == Next(states[k - 1], events[k - 1]);
    assert TurnsOn(states, i, k - 1) <==> j == k - 1;
    if j < k - 1 {
      LastOnIsLastSwitchOn(states, events, i, j, k - 1);
    } else {
      LastOnIsPast(states, events, i, j, j);
    }
  }

  /** A device's on-clock is never ahead of what comes. */
  lemma {:induction false} LastOnIsPast(states: seq<Manager>, events: seq<Event>, i: nat, j: nat, k: nat)
    requires IsRun(states, events) && i < |states[0].devices| && states[0].devices[i].kind != BatteryDevice
    requires j <= k < |events| && StartsBefore(states[0], i, events)
    ensures |states[j].devices| == |states[0].devices| && states[j].devices[i].lastOn <= Time(events[k])
    decreases j
  {
    hide Next, Possible;
    SameThroughout(states, events, j);
    if j > 0 {
      LastOnIsPast(states, events, i, j - 1, k);
      SameThroughout(states, events, j - 1);
      assert Possible(states[j - 1], events[j - 1]);
      EventClocks(states[j - 1], events[j - 1], i);
      assert states[j] == Next(states[j - 1], events[j - 1]);
    }
  }

  predicate TooLong(config: DeviceConfig, elapsed: int)
  {
    config.maxOn > 0 && elapsed > config.maxOn && elapsed >= config.minOn
  }

  /** Maximum-time safety over every interleaving, arbitrary relay reports included: after a completed tick whose relay
      obeys, a device in use that was automatic before the tick has not been on for too long since it last turned on, by
      whatever. Unless it turned on by itself, an automatic device has been on for too long exactly when a manual period
      ended in that very tick with the device on for too long. */
  lemma MaxOnOverRuns(states: seq<Manager>, events: seq<Event>, i: nat, j: nat, k: nat)
    requires IsRun(states, events) && i < |states[0].devices| && states[0].devices[i].kind != BatteryDevice
    requires k < |events| && LastSwitchOn(states, i, j, k + 1) && Completes(states[k], events[k])
    requires StartsBefore(states[0], i, events)
    requires var d := states[k].devices[i];
             d.config.enabled && !d.offline && d.config.hasControl && d.id !in events[k].env.unreachable
    ensures var d, d', elapsed := states[k].devices[i], states[k + 1].devices[i], Time(events[k]) - Time(events[j]);
            && (d'.state && !d.manual ==> !TooLong(d.config, elapsed))
            && (!events[j].ReportEvent? ==>
                 (d'.state && !d'.manual && TooLong(d.config, elapsed) <==>
                    d.state && d.manual && ManualExpires(d, events[k].env.at) && TooLong(d.config, elapsed)))
  {
    hide Tick, Ready, Aborts, Round;
    SameThroughout(states, events, k);
    SameThroughout(states, events, k + 1);
    LastOnIsLastSwitchOn(states, events, i, j, k + 1);
    assert Possible(states[k], events[k]);
    MaxOnIff(states[k], events[k].env, i);
    if j < k {
      LastOnIsLastSwitchOn(states, events, i, j, k);
    }
    ManualIsKept(states[k], events[k].env, i);
  }

  /** A tick makes no device manual, and makes one automatic only when its manual period ends. */
  lemma ManualIsKept(m: Manager, env: Env, i: nat)
    requires Ready(m, env) && i < |m.devices| && m.devices[i].kind != BatteryDevice
    ensures var d, d' := m.devices[i], Tick(m, env).devices[i];
            && (d'.manual ==> d.manual)
            && (d.manual ==> d'.state == d.state && (!d'.manual ==> ManualExpires(d, env.at)))
  {
    hide Round, Inventory, TimeRangeWanted, Obey, Devices.IsOnBattery, Aborts;
    if !Aborts(m, env) {
      RoundHandles(m, env, i);
      HandledTimely(m.devices[i], Round(m, env).devices[i], Classes(m, env)[i], Round(m, env).offloads, env,
                    env.schedules[i], Devices.IsOnBattery(m.devices, m.devices[i]));
    }
  }

  /** A heater switched on by hand at 90, and the tick at 100. */
  lemma HeaterByHand(heater: Device, passive: Device, battery: BatteryState, policy: BatteryConfig)
    returns (m: Manager, env: Env)
    requires heater.kind == TimeRangeDevice && heater.config.enabled && !heater.offline && !heater.config.batteryEnabled
    requires heater.id != BATTERY_ID && heater.manual && heater.manualTimeout == 10 && heater.lastManual == 90
    requires passive.kind == BatteryDevice && passive.id == BATTERY_ID && !passive.config.enabled
    requires !passive.config.batteryEnabled
    ensures m == Manager([heater, passive], battery, policy, 0) && env.at == Moment(100, 100)
    ensures Ready(m, env) && !Aborts(m, env) && Tick(m, env).devices[0] == heater.(manual := false, manualTimeout := 0)
  {
    hide BatteryWanted, ForcedPass, Round, Select, Inventory;
    var none := Schedules(false, false, false);
    m := Manager([heater, passive], battery, policy, 0);
    env := Env(Moment(100, 100), [none, none], {}, false, false, [0, 1],
               Snapshot([0.0], [], [], [], 0, 0, 0.0, 0.0), Margins(0.0, 1.0), 0);
    PairInventory(heater, passive);
    assert env.order[0] == 0 && env.order[1] == 1;
    assert ClassOf(m, 0, env) == Some(ForcedTo(heater.state)) && ClassOf(m, 1, env) == Some(Ignored);
    UnchangedIsUntouched(m, env, 0);
  }

  /** The exception happens: a heater with a maximum of 5 seconds, switched on by hand for 10 seconds at instant 90, is
      automatic and on after the tick at 100. */
  lemma MaxOnMissed(battery: BatteryState, policy: BatteryConfig) returns (states: seq<Manager>, events: seq<Event>)
    ensures IsRun(states, events) && |events| == 2 && states[0].battery == battery && states[0].batteryConfig == policy
    ensures Completes(states[1], events[1]) && |states[0].devices| == |states[1].devices| == |states[2].devices| == 2
    ensures LastSwitchOn(states, 0, 0, 2) && Time(events[1]) - Time(events[0]) == 10
    ensures var d, d' := states[1].devices[0], states[2].devices[0];
            && d.config.enabled && d.config.hasControl && !d.offline && d.config.maxOn == 5
            && d'.state && !d'.manual && TooLong(d.config, 10)
  {
    hide Tick, Aborts, Ready, Clocked;
    var config := DeviceConfig(true, true, false, 1.0, false, 0, 0, 5, 0, 0, 0, 0);
    var heater := Device(1, TimeRangeDevice, config, false, false, 0, false, 0, 0, 0, 0.0, []);
    var passive :=
      Device(BATTERY_ID, BatteryDevice, config.(enabled := false), false, false, 0, false, 0, 0, 0, 0.0, []);
    var start := Manager([heater, passive], battery, policy, 0);
    var byHand := SetByHand(heater, true, 10, true, Moment(90, 90));
    ClockedSame(heater, true, Moment(90, 90));
    var m, env := HeaterByHand(byHand, passive, battery, policy);
    assert [heater, passive][0 := byHand] == [byHand, passive];
    events := [ManualEvent(Moment(90, 90), 0, true, 10, true), TickEvent(env)];
    states := [start, m, Tick(m, env)];
  }

  lemma ClockedSame(d: Device, state: bool, at: Moment)
    ensures var d' := Clocked(d, state, at);
            d'.id == d.id && d'.kind == d.kind && d'.config == d.config && d'.offline == d.offline
  {
  }

  // ---------------------------------------------------------------- BACKUP over runs

  ghost predicate LeavesBackupAt(states: seq<Manager>, l: nat)
    requires l + 1 < |states|
  {
    states[l].battery.socState == Backup && states[l + 1].battery.socState != Backup
  }

  /** From a reading below battery_low on, the battery is in BACKUP until an event takes it out. */
  lemma {:induction false} BackupUntilExit(states: seq<Manager>, events: seq<Event>, j: nat, k: nat)
    requires IsRun(states, events) && j < k <= |events| && states[0].batteryConfig.Valid()
    requires events[j].VoltmeterEvent? && events[j].reading.soc < states[0].batteryConfig.batteryLow as real
    requires forall l :: j < l < k ==> !LeavesBackupAt(states, l)
    ensures states[k].battery.socState == Backup
    decreases k
  {
    hide Tick, Ready, DeviceAfter;
    SameConfig(states, events, j);
    assert Possible(states[k - 1], events[k - 1]) && states[k] == Next(states[k - 1], events[k - 1]);
    if j < k - 1 {
      BackupUntilExit(states, events, j, k - 1);
      assert !LeavesBackupAt(states, k - 1);
    }
  }

  lemma {:induction false} SameConfig(states: seq<Manager>, events: seq<Event>, k: nat)
    requires IsRun(states, events) && k <= |events|
    ensures states[k].batteryConfig == states[0].batteryConfig
  {
    hide Round, Ready, Aborts, DeviceAfter, Sense;
    if k > 0 {
      SameConfig(states, events, k - 1);
      assert Possible(states[k - 1], events[k - 1]) && states[k] == Next(states[k - 1], events[k - 1]);
    }
  }

  /** BACKUP protects the battery over every run: from a reading below battery_low until the next exit of BACKUP, every
      completed tick with the battery under control ends with it on the grid. */
  lemma BackupOverRuns(states: seq<Manager>, events: seq<Event>, j: nat, k: nat)
    requires IsRun(states, events) && j < k < |events| && states[0].batteryConfig.Valid()
    requires events[j].VoltmeterEvent? && events[j].reading.soc < states[0].batteryConfig.batteryLow as real
    requires forall l :: j < l < k ==> !LeavesBackupAt(states, l)
    requires Completes(states[k], events[k]) && BatteryUnderControl(states[k], events[k].env)
    ensures Inventory(states[k + 1].devices) && BatteryDeviceOf(states[k + 1].devices).state
  {
    hide Tick, Ready, Aborts, Round, Sense, DeviceAfter, BatteryUnderControl, Inventory;
    BackupUntilExit(states, events, j, k);
    var m, env := states[k], events[k].env;
    assert Possible(m, events[k]) && states[k + 1] == Next(m, events[k]);
    ReadyInventory(m, env);
    BackupProtectsBattery(m, env);
    InventorySame(m.devices, states[k + 1].devices);
    FindSame(m.devices, states[k + 1].devices, BATTERY_ID);
  }

  lemma ReadyInventory(m: Manager, env: Env)
    requires Ready(m, env)
    ensures Inventory(m.devices)
  {
  }

  // ---------------------------------------------------------------- cooldown

  ghost predicate Completes(m: Manager, e: Event)
  {
    e.TickEvent? && Ready(m, e.env) && !Aborts(m, e.env)
  }

  lemma ChangeIsRemembered(m: Manager, e: Event)
    requires Possible(m, e) && m.lastChange <= Time(e)
    ensures m.lastChange <= Next(m, e).lastChange <= Time(e)
    ensures Completes(m, e) && Round(m, e.env).changed ==> Next(m, e).lastChange == Time(e)
  {
    hide Round, Ready, Aborts, Sense;
  }

  lemma {:induction false} LastChangeCovers(states: seq<Manager>, events: seq<Event>, j: nat, k: nat)
    requires IsRun(states, events) && j <= k <= |events|
    requires forall e :: 0 <= e < |events| ==> states[0].lastChange <= Time(events[e])
    ensures states[0].lastChange <= states[k].lastChange
    ensures forall e :: k <= e < |events| ==> states[k].lastChange <= Time(events[e])
    ensures j < k && Completes(states[j], events[j]) && Round(states[j], events[j].env).changed ==>
      Time(events[j]) <= states[k].lastChange
    decreases k
  {
    hide Next, Possible, Round, Completes;
    if k > 0 {
      LastChangeCovers(states, events, if j < k then j else k - 1, k - 1);
      assert Possible(states[k - 1], events[k - 1]);
      ChangeIsRemembered(states[k - 1], events[k - 1]);
    }
  }

  /** Cooldown over every run: an offload pass runs only in a tick whose forced pass changed nothing, and at least the
      cooldown after every earlier tick that changed anything, and after the start. */
  lemma CooldownOverRuns(states: seq<Manager>, events: seq<Event>, j: nat, k: nat)
    requires IsRun(states, events) && j <= k < |events|
    requires forall e :: 0 <= e < |events| ==> states[0].lastChange <= Time(events[e])
    requires Completes(states[k], events[k]) && Round(states[k], events[k].env).offloads
    ensures !Round(states[k], events[k].env).forced.changed
    ensures Time(events[k]) - states[0].lastChange >= events[k].env.cooldown
    ensures j < k && Completes(states[j], events[j]) && Round(states[j], events[j].env).changed ==>
      Time(events[k]) - Time(events[j]) >= events[k].env.cooldown
  {
    hide Next, Round, Aborts, Ready;
    LastChangeCovers(states, events, j, k);
    OffloadsOnlyWhenQuiet(states[k], events[k].env);
  }
}
