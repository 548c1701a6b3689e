/** The tick as it runs on the devices themselves. */
module Ticks {
  import opened Series
  import opened Statistics
  import opened BatteryLatch
  import opened Devices
  import opened Algos
  import opened AlgoRuns
  import opened Managers

  /** What a tick is told from outside. */
  datatype Signals = Signals(
    at: Moment, schedules: seq<Schedules>, unreachable: set<int>, gridOffline: bool, chargeActive: bool,
    order: seq<nat>)

  class DevicesManager {
    /** The switched devices, sorted by priority. */
    const inventory: seq<OnOff>
    const battery: Battery
    const stats: Stats
    var margins: Margins
    var cooldown: nat
    var lastChange: int

    constructor (inventory: seq<OnOff>, battery: Battery, stats: Stats, margins: Margins, cooldown: nat, now: int)
      ensures this.inventory == inventory && this.battery == battery && this.stats == stats
      ensures this.margins == margins && this.cooldown == cooldown && lastChange == now
    {
      this.inventory, this.battery, this.stats := inventory, battery, stats;
      this.margins, this.cooldown, lastChange := margins, cooldown, now;
    }

    ghost function View(): Manager
      reads this, inventory, battery
    {
      Manager(Views(inventory), battery.State(), battery.config, lastChange)
    }

    ghost function Complete(s: Signals): Env
      reads this, stats
    {
      Env(s.at, s.schedules, s.unreachable, s.gridOffline, s.chargeActive, s.order, stats.View(), margins, cooldown)
    }

    /** The tick sees what it is told from outside, the statistics, and its own configuration. */
    lemma CompleteIs(s: Signals)
      ensures var env := Complete(s);
              && env.at == s.at && env.schedules == s.schedules && env.unreachable == s.unreachable
              && env.order == s.order && env.gridOffline == s.gridOffline && env.chargeActive == s.chargeActive
              && env.stats == stats.View() && env.margins == margins && env.cooldown == cooldown
    {
    }

    method WantedStateOf(i: nat, s: Signals) returns (w: Option<WantedState>)
      requires i < |inventory| == |s.schedules|
      ensures w == Wanted(View(), i, Complete(s))
    {
      hide TimeRangeWanted, BatteryWanted, Observed;
      var device := inventory[i];
      if device.kind == BatteryDevice {
        var b := battery.GetWantedState(device.config.hasControl, device.manual, s.gridOffline, s.chargeActive,
                                        s.at.mono - device.lastOn, device.config.minOn);
        return Some(b);
      }
      w := device.GetWantedState(s.schedules[i], s.at);
    }

    method ClassOfDevice(i: nat, s: Signals) returns (c: Option<Class>)
      requires i < |inventory| == |s.schedules| && Inventory(Views(inventory))
      ensures c == ClassOf(View(), i, Complete(s))
    {
      hide Wanted, IsOnBattery, Observed;
      if inventory[i].offline {
        return Some(Ignored);
      }
      if !inventory[i].config.enabled {
        return Some(Ignored);
      }
      var newState := WantedStateOf(i, s);
      match newState {
        case None => return None;
        case Some(On) => return Some(ForcedTo(true));
        case Some(Off) => return Some(ForcedTo(false));
        case Some(Unchanged) => return Some(ForcedTo(inventory[i].state));
        case Some(Offload) =>
          var onBattery := DeviceOnBattery(inventory, i);
          return Some(if onBattery then OnBattery else OnGrid);
      }
    }

    /** Classifies every device; None as soon as a decision throws. */
    method Classify(s: Signals) returns (r: Option<seq<Class>>)
      requires |s.schedules| == |inventory| && Inventory(Views(inventory))
      ensures r.None? <==> Aborts(View(), Complete(s))
      ensures r.Some? ==> r.value == Classes(View(), Complete(s))
    {
      hide ClassOf, Inventory, Observed;
      var classes: seq<Class> := [];
      for it := 0 to |inventory|
        invariant |classes| == it && forall j :: 0 <= j < it ==> Some(classes[j]) == ClassOf(View(), j, Complete(s))
      {
        var c := ClassOfDevice(it, s);
        if c.None? {
          return None;
        }
        classes := classes + [c.value];
      }
      return Some(classes);
    }

    method SpecificActions(at: Moment)
      requires Distinct(inventory)
      modifies inventory
      ensures Views(inventory) == SpecificAll(old(Views(inventory)), at)
    {
      hide Specific;
      for it := 0 to |inventory|
        invariant forall j :: 0 <= j < it ==> inventory[j].View() == SpecificAll(old(Views(inventory)), at)[j]
        invariant forall j :: it <= j < |inventory| ==> inventory[j].View() == old(Views(inventory))[j]
      {
        if inventory[it].config.enabled {
          inventory[it].SpecificActions(at);
        }
      }
    }

    /** One tick. When a decision throws, nothing happens. */
    method Tick(s: Signals) returns (completed: bool)
      requires Distinct(inventory) && stats.Valid() && Ready(View(), Complete(s))
      modifies this, inventory
      ensures View() == Managers.Tick(old(View()), old(Complete(s)))
      ensures completed == !Aborts(old(View()), old(Complete(s)))
    {
      hide ClassOf, Aborts, Inventory, Observed, Stats.Valid;
      var classified := Classify(s);
      if classified.None? {
        return false;
      }
      var stateChanged := Passes(s, classified.value, View(), Complete(s));
      if stateChanged {
        lastChange := s.at.mono;
      }
      SpecificActions(s.at);
      return true;
    }

    /** The forced pass, then the offload passes when the cooldown has passed and no forced device changed. */
    method Passes(s: Signals, classes: seq<Class>, ghost m: Manager, ghost env: Env) returns (stateChanged: bool)
      requires Distinct(inventory) && stats.Valid() && m == View() && env == Complete(s)
      requires Ready(m, env) && !Aborts(m, env) && classes == Classes(m, env)
      modifies inventory
      ensures Views(inventory) == Round(m, env).devices && stateChanged == Round(m, env).changed
    {
      hide ClassOf, Aborts, Inventory, Permutation, Observed, Stats.Valid, ForcedRound, OffloadRound, GatedRound,
        Classes,
        Round, CooledDown, Picks;
      var grid: real;
      ghost var forced;
      RoundIs(m, env);
      stateChanged, grid, forced := ForcedPower(s, classes, m, env);
      if (s.at.mono - lastChange) % 0x1_0000_0000 >= cooldown && !stateChanged {
        stateChanged := OffloadPasses(s, classes, grid, forced);
      }
    }

    method ForcedPower(s: Signals, classes: seq<Class>, ghost m: Manager, ghost env: Env)
      returns (changed: bool, grid: real, ghost forced: Forced)
      requires Distinct(inventory) && m == View() && env == Complete(s)
      requires Ready(m, env) && !Aborts(m, env) && classes == Classes(m, env)
      modifies inventory
      ensures forced == ForcedRound(m, env) && Views(inventory) == forced.devices
      ensures changed == forced.changed && grid == forced.grid
    {
      hide ClassOf, Aborts, Inventory, Observed, ForcedPass, Select, Classes;
      var algoForced := new AlgoForced(inventory, Select(s.order, classes, ForcedRole), ForcedStates(classes));
      algoForced.Run(s.unreachable, s.at);
      return algoForced.stateChanged, algoForced.forcedPowerGrid, algoForced.Outcome();
    }

    method OffloadPasses(s: Signals, classes: seq<Class>, forcedPower: real, ghost forced: Forced)
      returns (changed: bool)
      requires Distinct(inventory) && stats.Valid() && Inventory(Views(inventory)) && |classes| == |inventory|
      requires forced.devices == Views(inventory) && forced.grid == forcedPower && Complete(s).stats.bounds != []
      modifies inventory
      ensures battery.State() == old(battery.State()) && battery.config == old(battery.config)
      ensures var o := OffloadRound(forced, classes, battery.State(), battery.config, old(Complete(s)));
              Views(inventory) == o.devices && changed == o.changed
    {
      hide Inventory, Observed, Stats.Valid, GridDecisions, Applied, AnyChange, BatterySelection, SelectedPower, Select;
      var all := Priorities(|inventory|);
      var algoOffload := new AlgoOffload(inventory, Select(all, classes, GridRole), forcedPower, stats, margins);
      algoOffload.Run(s.unreachable, s.at);
      InventorySame(forced.devices, Views(inventory));
      var algoOffloadBattery := new AlgoOffloadBattery(inventory, Select(all, classes, BatteryRole), battery);
      algoOffloadBattery.Run(s.unreachable, s.at);
      return algoOffload.stateChanged || algoOffloadBattery.stateChanged;
    }
  }
}
