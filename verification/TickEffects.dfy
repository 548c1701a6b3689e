/** What a tick does to the devices: the ranges and policies it serves, the battery pass, and what counts as a change.
    */
module TickEffects {
  import opened Series
  import opened Statistics
  import opened BatteryLatch
  import opened Devices
  import opened Algos
  import opened Managers
  import opened ManagerRuns
  import Timespans

  /** The device takes part in ticks, and its relay answers. */
  ghost predicate Controlled(d: Device, env: Env)
  {
    d.config.enabled && !d.offline && d.config.hasControl && d.id !in env.unreachable
  }

  lemma TickKeepsState(m: Manager, env: Env, i: nat)
    requires Ready(m, env) && !Aborts(m, env) && i < |m.devices|
    ensures Tick(m, env).devices[i].state == Round(m, env).devices[i].state
  {
    hide Inventory, Round, Aborts;
  }

  lemma ForcedState(m: Manager, env: Env, i: nat, on: bool)
    requires Ready(m, env) && !Aborts(m, env) && i < |m.devices| && Controlled(m.devices[i], env)
    requires Classes(m, env)[i] == ForcedTo(on)
    ensures Tick(m, env).devices[i].state == on
  {
    hide Inventory, Round, Aborts, Obey, ClassOf, Tick, Specific;
    RoundHandles(m, env, i);
    ObeyIs(m.devices[i], on, env.unreachable, env.at);
    TickKeepsState(m, env, i);
  }

  // ---------------------------------------------------------------- ranges and policies

  /** A tick serves the ranges of a device free to switch: in its force range it is on afterwards, and without any
      active range it is off. */
  lemma TickServesRanges(m: Manager, env: Env, i: nat)
    requires Ready(m, env) && !Aborts(m, env) && i < |m.devices| && m.devices[i].kind != BatteryDevice
    requires Controlled(m.devices[i], env) && Free(m.devices[i], env.at)
    ensures env.schedules[i].force ==> Tick(m, env).devices[i].state
    ensures env.schedules[i] == Schedules(false, false, false) ==> !Tick(m, env).devices[i].state
  {
    hide Inventory, Tick, Aborts, Devices.IsOnBattery;
    if env.schedules[i].force {
      assert ClassOf(m, i, env) == Some(ForcedTo(true));
      ForcedState(m, env, i, true);
    }
    if env.schedules[i] == Schedules(false, false, false) {
      assert ClassOf(m, i, env) == Some(ForcedTo(false));
      ForcedState(m, env, i, false);
    }
  }

  /** A tick serves the battery's policy: with a known charge and outside BACKUP, a manual battery stays as it is, an
      automatic one goes off the grid when that is offline, on the grid under the grid policy, and under the battery
      policy on the grid exactly while charging is due inside a time range. Under the offload policy it stays as it is
      until its cooldown has passed, and is then up for offload. */
  lemma TickServesPolicy(m: Manager, env: Env)
    requires Ready(m, env) && !Aborts(m, env) && BatteryUnderControl(m, env) && m.battery.socState != Backup
    ensures var b := Find(m.devices, BATTERY_ID);
            var d, d', cfg, elapsed := m.devices[b], Tick(m, env).devices[b], m.batteryConfig,
              env.at.mono - m.devices[b].lastOn;
            && (d.manual ==> d'.state == d.state)
            && (!d.manual && env.gridOffline ==> !d'.state)
            && (!d.manual && !env.gridOffline ==>
                 match cfg.policy
                 case GridPolicy => d'.state
                 case BatteryPolicy =>
                   d'.state == (cfg.charge.enabled && m.battery.chargeRequired && env.chargeActive)
                 case OffloadPolicy =>
                   if elapsed > d.config.minOn then Classes(m, env)[b] in {OnGrid, OnBattery} else d'.state == d.state)
  {
    hide Tick, Aborts, Devices.IsOnBattery, TimeRangeWanted, Obey;
    var b := Find(m.devices, BATTERY_ID);
    assert Some(Classes(m, env)[b]) == ClassOf(m, b, env);
    if Classes(m, env)[b].ForcedTo? {
      ForcedState(m, env, b, Classes(m, env)[b].on);
    }
  }

  // ---------------------------------------------------------------- the battery pass

  /** The battery pass decides on its devices as they were at the start of the tick, after the grid pass. */
  lemma BatteryPassDecides(m: Manager, env: Env)
    requires Ready(m, env) && !Aborts(m, env) && Round(m, env).offloads
    ensures var o, bat := Round(m, env), Picked(Classes(m, env), BatteryRole);
            && Inventory(o.afterGrid) && |o.afterGrid| == |m.devices|
            && o.batterySelected == BatterySelection(o.afterGrid, bat, m.battery, m.batteryConfig)
            && o.devices == Applied(o.afterGrid, bat, o.batterySelected, env.unreachable, env.at)
            && (forall k :: 0 <= k < |bat| ==> o.afterGrid[bat[k]] == m.devices[bat[k]])
  {
    hide Aborts, ClassOf, GridDecisions, BatterySelection, AnyChange, Applied, ForcedRound, Inventory;
    GridPassDecides(m, env);
    var o, classes := Round(m, env), Classes(m, env);
    var grid, bat := Picked(classes, GridRole), Picked(classes, BatteryRole);
    PickedByPriority(classes, GridRole);
    PickedByPriority(classes, BatteryRole);
    forall k | 0 <= k < |bat|
      ensures o.afterGrid[bat[k]] == m.devices[bat[k]]
    {
      assert bat[k] in bat;
      AppliedElsewhere(m.devices, grid, o.gridSelected, env.unreachable, env.at, bat[k]);
    }
  }

  /** The power that pick k of the battery pass is judged by: what the battery delivers, less what the devices of the
      pass draw, plus what was selected at a higher priority, plus its own consumption. */
  ghost function BatteryNeed(o: Outcome, bat: seq<nat>, k: nat): real
    requires Inventory(o.afterGrid) && Picks(bat, |o.afterGrid|) && k < |bat| == |o.batterySelected|
  {
    Power(BatteryDeviceOf(o.afterGrid)) - PickSum(OnWeights(o.afterGrid), bat)
    + SelectedPower(o.afterGrid, bat[..k], o.batterySelected[..k]) + Consumption(o.afterGrid[bat[k]])
  }

  /** The battery pass of a tick: a device on the battery is selected exactly when offload is enabled and allowed and it
      fits, at its turn by priority, below the maximum; and it is then told so. */
  lemma TickBatterySelection(m: Manager, env: Env, k: nat)
    requires Ready(m, env) && !Aborts(m, env) && Round(m, env).offloads
    requires k < |Picked(Classes(m, env), BatteryRole)|
    ensures var o, bat := Round(m, env), Picked(Classes(m, env), BatteryRole);
            && Inventory(o.afterGrid) && |o.afterGrid| == |m.devices| && |o.batterySelected| == |bat|
            && o.afterGrid[bat[k]] == m.devices[bat[k]]
            && (o.batterySelected[k] <==>
                 && m.batteryConfig.offload.enabled && m.battery.offloadAllowed
                 && BatteryNeed(o, bat, k) < m.batteryConfig.offloadMax as real)
            && o.devices[bat[k]] == Obey(m.devices[bat[k]], o.batterySelected[k], env.unreachable, env.at)
  {
    hide Aborts, ClassOf, BatterySelection, Applied, Inventory, Round, Picked, Obey, Power, Consumption, OnWeights,
      SelectedPower, PickSum;
    BatteryPassDecides(m, env);
    var o, bat := Round(m, env), Picked(Classes(m, env), BatteryRole);
    BatterySelectionAt(o.afterGrid, bat, m.battery, m.batteryConfig, k);
    AppliedAt(o.afterGrid, bat, o.batterySelected, env.unreachable, env.at, k);
  }

  // ---------------------------------------------------------------- what counts as a change

  /** The device is not as it is told to be, and its relay does not throw. */
  ghost predicate Differs(d: Device, told: bool, unreachable: set<int>)
  {
    d.state != told && !(d.config.hasControl && d.id in unreachable)
  }

  /** Some pick differs from its selection. */
  ghost predicate SomeDiffers(devices: seq<Device>, picks: seq<nat>, selected: seq<bool>, unreachable: set<int>)
    requires Picks(picks, |devices|) && |selected| == |picks|
  {
    exists k :: 0 <= k < |picks| && Differs(devices[picks[k]], selected[k], unreachable)
  }

  lemma AnyChangeIs(devices: seq<Device>, picks: seq<nat>, selected: seq<bool>, unreachable: set<int>)
    requires Picks(picks, |devices|) && |selected| == |picks|
    ensures AnyChange(devices, picks, selected, unreachable) <==> SomeDiffers(devices, picks, selected, unreachable)
  {
    if k :| 0 <= k < |picks| && Differs(devices[picks[k]], selected[k], unreachable) {
      assert CountsAsChange(devices[picks[k]], selected[k], unreachable);
    }
    if k :| 0 <= k < |picks| && CountsAsChange(devices[picks[k]], selected[k], unreachable) {
      assert Differs(devices[picks[k]], selected[k], unreachable);
    }
  }

  lemma SameDiffers(a: seq<Device>, b: seq<Device>, picks: seq<nat>, selected: seq<bool>, unreachable: set<int>)
    requires |a| == |b| && Picks(picks, |a|) && |selected| == |picks|
    requires forall k :: 0 <= k < |picks| ==> a[picks[k]] == b[picks[k]]
    ensures SomeDiffers(a, picks, selected, unreachable) <==> SomeDiffers(b, picks, selected, unreachable)
  {
    hide Differs;
    if k :| 0 <= k < |picks| && Differs(a[picks[k]], selected[k], unreachable) {
      assert Differs(b[picks[k]], selected[k], unreachable);
    }
    if k :| 0 <= k < |picks| && Differs(b[picks[k]], selected[k], unreachable) {
      assert Differs(a[picks[k]], selected[k], unreachable);
    }
  }

  ghost predicate ForcedDiffers(m: Manager, env: Env, i: int)
    requires Ready(m, env) && !Aborts(m, env)
  {
    && 0 <= i < |m.devices| && Classes(m, env)[i].ForcedTo?
    && Differs(m.devices[i], Classes(m, env)[i].on, env.unreachable)
  }

  lemma ForcedChangeIs(m: Manager, env: Env)
    requires Ready(m, env) && !Aborts(m, env)
    ensures ForcedRound(m, env).changed <==> exists i :: ForcedDiffers(m, env, i)
  {
    hide Aborts, ClassOf, ForcedPass, Inventory, Select;
    var classes := Classes(m, env);
    var picks, wanted := Select(env.order, classes, ForcedRole), ForcedStates(classes);
    ForcedChanged(m.devices, picks, wanted, env.unreachable, env.at);
    if i :| ForcedDiffers(m, env, i) {
      assert i in picks;
      var k :| 0 <= k < |picks| && picks[k] == i;
      assert CountsAsChange(m.devices[picks[k]], wanted[picks[k]], env.unreachable);
    }
    if k :| 0 <= k < |picks| && CountsAsChange(m.devices[picks[k]], wanted[picks[k]], env.unreachable) {
      assert picks[k] in picks;
      assert ForcedDiffers(m, env, picks[k]);
    }
  }

  /** A tick counts as a change exactly when some device in one of the three passes was not as it was told to be and its
      relay did not throw, the devices taken as they were at the start of the tick. */
  lemma RoundChangedIff(m: Manager, env: Env)
    requires Ready(m, env) && !Aborts(m, env)
    ensures var o, grid, bat := Round(m, env), Picked(Classes(m, env), GridRole), Picked(Classes(m, env), BatteryRole);
            && (o.offloads ==> |o.gridSelected| == |grid| && |o.batterySelected| == |bat|)
            && (o.changed <==>
                  || (exists i :: ForcedDiffers(m, env, i))
                  || (o.offloads && SomeDiffers(m.devices, grid, o.gridSelected, env.unreachable))
                  || (o.offloads && SomeDiffers(m.devices, bat, o.batterySelected, env.unreachable)))
  {
    hide Aborts, ClassOf, GridDecisions, BatterySelection, AnyChange, Applied, ForcedRound, Inventory, Differs,
      SomeDiffers, ForcedDiffers, Picked;
    ForcedChangeIs(m, env);
    RoundIs(m, env);
    if Round(m, env).offloads {
      QuietRound(m, env);
      BatteryPassDecides(m, env);
      var o, grid, bat := Round(m, env), Picked(Classes(m, env), GridRole), Picked(Classes(m, env), BatteryRole);
      AnyChangeIs(m.devices, grid, o.gridSelected, env.unreachable);
      AnyChangeIs(o.afterGrid, bat, o.batterySelected, env.unreachable);
      SameDiffers(m.devices, o.afterGrid, bat, o.batterySelected, env.unreachable);
    }
  }

  /** Whatever a tick switches is a change. */
  lemma SwitchIsChange(m: Manager, env: Env, i: nat)
    requires Ready(m, env) && !Aborts(m, env) && i < |m.devices|
    requires Round(m, env).devices[i].state != m.devices[i].state
    ensures Round(m, env).changed
  {
    hide Aborts, ClassOf, Round, Inventory, Obey, ForcedRound, OffloadRound, Picked;
    RoundHandles(m, env, i);
    RoundChangedIff(m, env);
    var o, classes := Round(m, env), Classes(m, env);
    match classes[i] {
      case Ignored =>
      case ForcedTo(on) =>
        ObeyIs(m.devices[i], on, env.unreachable, env.at);
        assert ForcedDiffers(m, env, i);
      case OnGrid =>
        var k := PickOf(classes, GridRole, i);
        GridPassTells(m, env, k);
        ObeyIs(m.devices[i], o.gridSelected[k], env.unreachable, env.at);
        assert Differs(m.devices[Picked(classes, GridRole)[k]], o.gridSelected[k], env.unreachable);
      case OnBattery =>
        var k := PickOf(classes, BatteryRole, i);
        TickBatterySelection(m, env, k);
        ObeyIs(m.devices[i], o.batterySelected[k], env.unreachable, env.at);
        assert Differs(m.devices[Picked(classes, BatteryRole)[k]], o.batterySelected[k], env.unreachable);
    }
  }

  lemma PickOf(classes: seq<Class>, r: Role, i: nat) returns (k: nat)
    requires i < |classes| && Plays(classes[i], r)
    ensures k < |Picked(classes, r)| && Picked(classes, r)[k] == i
  {
    hide Picked;
    PickedByPriority(classes, r);
    assert i in Picked(classes, r);
    k :| 0 <= k < |Picked(classes, r)| && Picked(classes, r)[k] == i;
  }

  lemma GridPassTells(m: Manager, env: Env, k: nat)
    requires Ready(m, env) && !Aborts(m, env) && Round(m, env).offloads
    requires k < |Picked(Classes(m, env), GridRole)|
    ensures var o, i := Round(m, env), Picked(Classes(m, env), GridRole)[k];
            && |o.gridSelected| == |Picked(Classes(m, env), GridRole)|
            && o.devices[i] == Obey(m.devices[i], o.gridSelected[k], env.unreachable, env.at)
  {
    hide Aborts, ClassOf, GridDecisions, Applied, Inventory, Obey, OffloadRound, ForcedRound;
    var classes := Classes(m, env);
    PickedByPriority(classes, GridRole);
    GridPassDecides(m, env);
    var o, grid := Round(m, env), Picked(classes, GridRole);
    assert grid[k] in grid;
    AppliedAt(m.devices, grid, o.gridSelected, env.unreachable, env.at, k);
    BatteryPassSpares(m, env, grid[k]);
  }

  /** Cooldown over every run, in terms of the devices: an offload pass runs at least the cooldown after every earlier
      tick that left some device in another state than it found it. */
  lemma CooldownAfterSwitch(states: seq<Manager>, events: seq<ManagerRuns.Event>, i: nat, j: nat, k: nat)
    requires IsRun(states, events) && j < k < |events| && events[j].TickEvent?
    requires forall e :: 0 <= e < |events| ==> states[0].lastChange <= Time(events[e])
    requires Completes(states[k], events[k]) && Round(states[k], events[k].env).offloads
    requires i < |states[j].devices| && i < |states[j + 1].devices|
    requires states[j].devices[i].state != states[j + 1].devices[i].state
    ensures Time(events[k]) - Time(events[j]) >= events[k].env.cooldown
  {
    hide Tick, Round, Aborts, Ready;
    assert Possible(states[j], events[j]) && states[j + 1] == Next(states[j], events[j]);
    AbortedTick(states[j], events[j].env);
    if Completes(states[j], events[j]) {
      TickKeepsState(states[j], events[j].env, i);
      SwitchIsChange(states[j], events[j].env, i);
    }
    CooldownOverRuns(states, events, j, k);
  }

  lemma AbortedTick(m: Manager, env: Env)
    requires Ready(m, env)
    ensures Aborts(m, env) ==> Tick(m, env) == m
  {
  }

  // ---------------------------------------------------------------- the battery pass happens

  /** A lamp up for offload on a battery that is in use off the grid and delivers nothing. */
  lemma OfferedLamp(battery: BatteryState, policy: BatteryConfig, lamp: Device, source: Device)
    returns (m: Manager, env: Env)
    requires lamp == OffLamp() && source == IdleBattery()
    ensures m == Manager([lamp, source], battery, policy, 0) && env.at == Moment(100, 100) && env.unreachable == {}
    ensures Ready(m, env) && !Aborts(m, env) && CooledDown(m, env) && Classes(m, env) == [OnBattery, ForcedTo(false)]
    ensures BatteryDeviceOf(m.devices) == source
  {
    hide BatteryWanted, Inventory, Timespans.TotalForLast;
    m := Manager([lamp, source], battery, policy, 0);
    var s, none := Schedules(false, false, true), Schedules(false, false, false);
    env := Env(Moment(100, 100), [s, none], {}, false, false, [0, 1],
               Snapshot([0.0], [], [], [], 0, 0, 0.0, 0.0), Margins(0.0, 1.0), 0);
    LampInventory(lamp, source);
    assert env.order[0] == 0 && env.order[1] == 1;
    UncontrolledWants(battery, policy);
    assert ClassOf(m, 0, env) == Some(OnBattery) && ClassOf(m, 1, env) == Some(ForcedTo(false));
  }

  function OffLamp(): Device
  {
    Device(1, TimeRangeDevice, DeviceConfig(true, true, false, 100.0, true, 0, 0, 0, 0, 0, 0, 0), false, false, 0,
           false, 0, 0, 0, 0.0, [])
  }

  function IdleBattery(): Device
  {
    Device(BATTERY_ID, BatteryDevice, DeviceConfig(true, false, true, 0.0, false, 0, 0, 0, 0, 0, 0, 0), false, false, 0,
           false, 0, 0, 0, 0.0, [])
  }

  lemma LampInventory(lamp: Device, source: Device)
    requires lamp == OffLamp() && source == IdleBattery()
    ensures Inventory([lamp, source]) && BatteryDeviceOf([lamp, source]) == source
    ensures Devices.IsOnBattery([lamp, source], lamp)
  {
    LampAndBattery(lamp, source);
    assert [lamp, source][1..] == [source];
  }

  lemma UncontrolledWants(b: BatteryState, cfg: BatteryConfig)
    ensures forall manual, gridOffline, chargeActive, sinceOn, cooldown ::
      BatteryWanted(b, cfg, false, manual, gridOffline, chargeActive, sinceOn, cooldown) == Unchanged
  {
  }

  /** The battery pass turns devices on: once a voltmeter event brings the charge up to the high threshold, the next
      tick switches on a lamp of 100 watts under a maximum of 1000. */
  lemma BatteryOffloadHappens() returns (states: seq<Manager>, events: seq<ManagerRuns.Event>)
    ensures IsRun(states, events) && |events| == 2 && states[0].battery == Initial(0) && states[0].batteryConfig.Valid()
    ensures events[0].VoltmeterEvent? && Completes(states[1], events[1])
    ensures |states[1].devices| == |states[2].devices| == 2 && Classes(states[1], events[1].env)[0] == OnBattery
    ensures !states[0].battery.offloadAllowed && states[1].battery.offloadAllowed
    ensures !states[1].devices[0].state && states[2].devices[0].state
  {
    hide Ready, Aborts, Tick, Round, Inventory, ClassOf, Obey, CooledDown, OffLamp, IdleBattery;
    var cfg := BatteryConfig(BatteryPolicy, 10, 90, 0, Hysteresis(true, 20, 80), 1000, Hysteresis(false, 0, 0));
    var r := Reading(85.0, Unsupported, false, false, 50);
    var charged := Sense(Initial(0), cfg, r);
    var m, env := OfferedLamp(charged, cfg, OffLamp(), IdleBattery());
    LampOffload(m, env);
    events := [VoltmeterEvent(Moment(50, 50), r), TickEvent(env)];
    states := [m.(battery := Initial(0)), m, Tick(m, env)];
  }

  lemma LampOffload(m: Manager, env: Env)
    requires Ready(m, env) && !Aborts(m, env) && CooledDown(m, env) && m.devices == [OffLamp(), IdleBattery()]
    requires Classes(m, env) == [OnBattery, ForcedTo(false)] && BatteryDeviceOf(m.devices) == IdleBattery()
    requires env.unreachable == {} && m.battery.offloadAllowed && m.batteryConfig.offload.enabled
    requires m.batteryConfig.offloadMax == 1000
    ensures !m.devices[0].state && Tick(m, env).devices[0].state
  {
    hide Aborts, Tick, Round, ClassOf, Obey, BatteryNeed, ForcedDiffers, Picked, Select, Inventory;
    var o, bat := Round(m, env), Picked(Classes(m, env), BatteryRole);
    NothingForcedDiffers(m, env);
    ForcedChangeIs(m, env);
    OffloadsIff(m, env);
    LampPicks(Classes(m, env));
    TickBatterySelection(m, env, 0);
    LampNeeds(m, env);
    ObeyIs(m.devices[0], true, env.unreachable, env.at);
    TickKeepsState(m, env, 0);
  }

  lemma NothingForcedDiffers(m: Manager, env: Env)
    requires Ready(m, env) && !Aborts(m, env) && m.devices == [OffLamp(), IdleBattery()]
    requires Classes(m, env) == [OnBattery, ForcedTo(false)]
    ensures !exists i :: ForcedDiffers(m, env, i)
  {
    hide Aborts, ClassOf, Ready;
  }

  lemma LampPicks(classes: seq<Class>)
    requires classes == [OnBattery, ForcedTo(false)]
    ensures Picked(classes, BatteryRole) == [0] && Picked(classes, GridRole) == []
  {
    OnlyPick(Priorities(2), classes, BatteryRole, 0);
    NoPick(Priorities(2), classes, GridRole);
  }

  lemma LampNeeds(m: Manager, env: Env)
    requires Ready(m, env) && !Aborts(m, env) && m.devices == [OffLamp(), IdleBattery()] && Round(m, env).offloads
    requires Classes(m, env) == [OnBattery, ForcedTo(false)] && BatteryDeviceOf(m.devices) == IdleBattery()
    ensures var o := Round(m, env);
            && Inventory(o.afterGrid) && Picks([0], |o.afterGrid|) && |o.batterySelected| == 1
            && BatteryNeed(o, [0], 0) == 100.0
  {
    hide Aborts, ClassOf, Inventory, Round, GridDecisions, BatterySelection, Applied, OffLamp, IdleBattery, Picked,
      BatteryNeed;
    LampPicks(Classes(m, env));
    PickedIs(Classes(m, env), GridRole);
    BatteryPassDecides(m, env);
    GridPassDecides(m, env);
    var o := Round(m, env);
    AppliedNone(m.devices, o.gridSelected, env.unreachable, env.at);
    NeedOfLamp(o);
  }

  lemma PickedIs(classes: seq<Class>, r: Role)
    ensures Picked(classes, r) == Select(Priorities(|classes|), classes, r)
  {
  }

  lemma AppliedNone(devices: seq<Device>, selected: seq<bool>, unreachable: set<int>, at: Moment)
    requires selected == []
    ensures Applied(devices, [], selected, unreachable, at) == devices
  {
  }

  lemma NeedOfLamp(o: Outcome)
    requires o.afterGrid == [OffLamp(), IdleBattery()] && |o.batterySelected| == 1 && Inventory(o.afterGrid)
    requires BatteryDeviceOf(o.afterGrid) == IdleBattery()
    ensures Picks([0], 2) && BatteryNeed(o, [0], 0) == 100.0
  {
    hide Inventory;
    assert [0][..0] == [];
    assert PickSum(OnWeights(o.afterGrid), [0]) == 0.0;
  }
}
