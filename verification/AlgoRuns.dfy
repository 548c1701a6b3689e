/** The passes as they run, switching the devices themselves one after the other. */
module AlgoRuns {
  import opened Statistics
  import opened BatteryLatch
  import opened Devices
  import opened Algos

  ghost function Views(inventory: seq<OnOff>): (r: seq<Device>)
    reads inventory
    ensures |r| == |inventory| && forall i :: 0 <= i < |r| ==> r[i] == inventory[i].View()
  {
    seq(|inventory|, i requires 0 <= i < |inventory| reads inventory => inventory[i].View())
  }

  ghost predicate Distinct(inventory: seq<OnOff>)
  {
    forall i, j :: 0 <= i < j < |inventory| ==> inventory[i] != inventory[j]
  }

  method FindDevice(inventory: seq<OnOff>, id: int) returns (i: nat)
    ensures i == Find(Views(inventory), id)
  {
    i := 0;
    while i < |inventory| && inventory[i].id != id
      invariant i <= |inventory| && forall j :: 0 <= j < i ==> inventory[j].id != id
    {
      i := i + 1;
    }
    FindIs(Views(inventory), id, i);
  }

  lemma FindIs(devices: seq<Device>, id: int, i: nat)
    requires i <= |devices| && (i < |devices| ==> devices[i].id == id) && forall j :: 0 <= j < i ==> devices[j].id != id
    ensures Find(devices, id) == i
  {
  }

  method DeviceOnBattery(inventory: seq<OnOff>, i: nat) returns (r: bool)
    requires i < |inventory| && Inventory(Views(inventory))
    ensures r == IsOnBattery(Views(inventory), Views(inventory)[i])
  {
    var device := inventory[i];
    if device.kind == ControllerDevice {
      return !device.state;
    }
    if !device.config.batteryEnabled {
      return false;
    }
    var b := FindDevice(inventory, BATTERY_ID);
    if !(inventory[b].config.enabled && !inventory[b].state) {
      return false;
    }
    if device.config.controllerId == 0 {
      return true;
    }
    var c := FindDevice(inventory, device.config.controllerId);
    return !inventory[c].state;
  }

  /** The common part of the passes: switch if needed, and report a change unless the relay threw. */
  method Command(inventory: seq<OnOff>, i: nat, wanted: bool, unreachable: set<int>, at: Moment) returns (changed: bool)
    requires Distinct(inventory) && i < |inventory|
    modifies inventory[i]
    ensures Views(inventory) == old(Views(inventory))[i := Obey(old(Views(inventory))[i], wanted, unreachable, at)]
    ensures changed == CountsAsChange(old(Views(inventory))[i], wanted, unreachable)
  {
    hide Switched;
    changed := false;
    if inventory[i].state != wanted {
      var thrown := inventory[i].SetState(wanted, inventory[i].id !in unreachable, at);
      changed := !thrown;
    }
  }

  class AlgoForced {
    const inventory: seq<OnOff>
    const picks: seq<nat>
    const wanted: seq<bool>
    var forcedPower: real
    var forcedPowerGrid: real
    var forcedPowerBattery: real
    var stateChanged: bool

    constructor (inventory: seq<OnOff>, picks: seq<nat>, wanted: seq<bool>)
      ensures this.inventory == inventory && this.picks == picks && this.wanted == wanted
    {
      this.inventory, this.picks, this.wanted := inventory, picks, wanted;
      forcedPower, forcedPowerGrid, forcedPowerBattery, stateChanged := 0.0, 0.0, 0.0, false;
    }

    ghost function Outcome(): Forced
      reads this, inventory
    {
      Forced(Views(inventory), stateChanged, forcedPower, forcedPowerGrid, forcedPowerBattery)
    }

    method Run(unreachable: set<int>, at: Moment)
      requires Distinct(inventory) && Inventory(Views(inventory))
      requires Picks(picks, |inventory|) && |wanted| == |inventory|
      modifies this, inventory
      ensures Outcome() == ForcedPass(old(Views(inventory)), picks, wanted, unreachable, at)
    {
      hide Inventory, IsOnBattery, Consumption, Obey, CountsAsChange, ForcedStep;
      stateChanged := false;
      forcedPower, forcedPowerGrid, forcedPowerBattery := 0.0, 0.0, 0.0;
      ghost var before := Views(inventory);
      assert picks[..0] == [];
      for k := 0 to |picks|
        invariant Outcome() == ForcedPass(before, picks[..k], wanted, unreachable, at)
      {
        assert picks[..k + 1][..k] == picks[..k];
        Step(picks[k], unreachable, at);
      }
      assert picks[..|picks|] == picks;
    }

    method Step(i: nat, unreachable: set<int>, at: Moment)
      requires Distinct(inventory) && Inventory(Views(inventory)) && i < |inventory| && |wanted| == |inventory|
      modifies this, inventory
      ensures Outcome() == ForcedStep(old(Outcome()), i, wanted[i], unreachable, at)
    {
      hide Inventory, IsOnBattery, Consumption, Obey, CountsAsChange;
      ghost var before := Views(inventory);
      ReplaceSame(before, i, wanted[i], unreachable, at);
      InventorySame(before, before[i := Obey(before[i], wanted[i], unreachable, at)]);
      var changed := Command(inventory, i, wanted[i], unreachable, at);
      Account(i, changed);
    }

    method Account(i: nat, changed: bool)
      requires Inventory(Views(inventory)) && i < |inventory|
      modifies this
      ensures var d := Views(inventory)[i];
              var c, onBattery := if d.state then Consumption(d) else 0.0, d.state && IsOnBattery(Views(inventory), d);
              && stateChanged == (old(stateChanged) || changed) && forcedPower == old(forcedPower) + c
              && forcedPowerGrid == old(forcedPowerGrid) + (if onBattery then 0.0 else c)
              && forcedPowerBattery == old(forcedPowerBattery) + (if onBattery then c else 0.0)
    {
      hide Inventory, IsOnBattery, Consumption;
      if changed {
        stateChanged := true;
      }
      if inventory[i].state {
        var power := inventory[i].GetExpectedConsumption();
        forcedPower := forcedPower + power;
        var onBattery := DeviceOnBattery(inventory, i);
        if onBattery {
          forcedPowerBattery := forcedPowerBattery + power;
        } else {
          forcedPowerGrid := forcedPowerGrid + power;
        }
      }
    }
  }

  class AlgoOffload {
    const inventory: seq<OnOff>
    const picks: seq<nat>
    const forcedPower: real
    const stats: Stats
    const margins: Margins
    var offloadedPower: real
    var stateChanged: bool
    ghost var selected: seq<bool>

    constructor (inventory: seq<OnOff>, picks: seq<nat>, forcedPower: real, stats: Stats, margins: Margins)
      ensures this.inventory == inventory && this.picks == picks && this.forcedPower == forcedPower
      ensures this.stats == stats && this.margins == margins
    {
      this.inventory, this.picks, this.forcedPower := inventory, picks, forcedPower;
      this.stats, this.margins := stats, margins;
      offloadedPower, stateChanged, selected := 0.0, false, [];
    }

    method Hysteresis(i: nat) returns (r: bool)
      requires i < |inventory| && stats.Valid()
      ensures r == WantsGrid(Views(inventory)[i], forcedPower + offloadedPower, stats.View(), margins)
    {
      hide Consumption, Snapshot.Prediction, Observed, Stats.Valid;
      StatsHaveBuckets(stats);
      var consumption := inventory[i].GetExpectedConsumption();
      var activePower := forcedPower + offloadedPower;
      if inventory[i].state {
        SnapAverage(stats);
        var availablePower := stats.snapAverage - activePower;
        return consumption - availablePower < margins.importMargin;
      }
      var prediction := stats.GetDevicePrediction(inventory[i].config.minOn, consumption + activePower);
      return prediction.Some? && prediction.value >= margins.precision;
    }

    /** Selects in order of priority; the devices end up as selected wherever their relays obey. */
    method Run(unreachable: set<int>, at: Moment)
      requires Distinct(inventory) && Picks(picks, |inventory|) && stats.Valid()
      modifies this, inventory
      ensures stats.Valid() && stats.View() == old(stats.View()) && stats.slow.bounds != []
      ensures selected == GridDecisions(old(Views(inventory)), picks, forcedPower, stats.View(), margins)
      ensures offloadedPower == SelectedPower(old(Views(inventory)), picks, selected)
      ensures Views(inventory) == Applied(old(Views(inventory)), picks, selected, unreachable, at)
      ensures stateChanged <==> AnyChange(old(Views(inventory)), picks, selected, unreachable)
    {
      hide WantsGrid, Consumption, Obey, CountsAsChange, Stats.Valid, Observed, AnyChange, Applied, SelectedPower,
        GridDecisions;
      StatsHaveBuckets(stats);
      stateChanged := false;
      offloadedPower := 0.0;
      selected := [];
      ghost var before := Views(inventory);
      NothingYet(before, unreachable, at);
      NoGridYet(before, forcedPower, stats.View(), margins);
      assert picks[..0] == [];
      for k := 0 to |picks|
        invariant stats.Valid() && stats.View() == old(stats.View())
        invariant selected == GridDecisions(before, picks[..k], forcedPower, stats.View(), margins)
        invariant offloadedPower == SelectedPower(before, picks[..k], selected)
        invariant Views(inventory) == Applied(before, picks[..k], selected, unreachable, at)
        invariant stateChanged <==> AnyChange(before, picks[..k], selected, unreachable)
      {
        PassNext(before, picks, k, selected, true, unreachable, at);
        PassNext(before, picks, k, selected, false, unreachable, at);
        GridNext(before, picks, k, forcedPower, stats.View(), margins);
        Step(picks[k], unreachable, at);
      }
      assert picks[..|picks|] == picks;
    }

    /** One device's turn. */
    method Step(i: nat, unreachable: set<int>, at: Moment)
      requires Distinct(inventory) && i < |inventory| && stats.Valid()
      modifies this, inventory
      ensures stats.Valid() && stats.View() == old(stats.View()) && stats.slow.bounds != []
      ensures var d := old(Views(inventory))[i];
              var s := WantsGrid(d, forcedPower + old(offloadedPower), stats.View(), margins);
              && selected == old(selected) + [s]
              && offloadedPower == old(offloadedPower) + (if s then Consumption(d) else 0.0)
              && Views(inventory) == old(Views(inventory))[i := Obey(d, s, unreachable, at)]
              && stateChanged == (old(stateChanged) || CountsAsChange(d, s, unreachable))
    {
      hide WantsGrid, Consumption, Obey, CountsAsChange, Stats.Valid, Observed, Views;
      StatsHaveBuckets(stats);
      var newState := Hysteresis(i);
      var consumption := inventory[i].GetExpectedConsumption();
      if newState {
        offloadedPower := offloadedPower + consumption;
      }
      selected := selected + [newState];
      var changed := Switch(i, newState, unreachable, at);
      stateChanged := stateChanged || changed;
    }

    /** Switching does not touch the statistics. */
    method Switch(i: nat, wanted: bool, unreachable: set<int>, at: Moment) returns (changed: bool)
      requires Distinct(inventory) && i < |inventory| && stats.Valid()
      modifies inventory[i]
      ensures stats.Valid() && stats.View() == old(stats.View())
      ensures Views(inventory) == old(Views(inventory))[i := Obey(old(Views(inventory))[i], wanted, unreachable, at)]
      ensures changed == CountsAsChange(old(Views(inventory))[i], wanted, unreachable)
    {
      hide Obey, CountsAsChange, Stats.Valid, Observed;
      changed := Command(inventory, i, wanted, unreachable, at);
    }
  }

  lemma NothingYet(devices: seq<Device>, unreachable: set<int>, at: Moment)
    ensures !AnyChange(devices, [], [], unreachable) && Applied(devices, [], [], unreachable, at) == devices
    ensures SelectedPower(devices, [], []) == 0.0
  {
  }

  lemma NoGridYet(devices: seq<Device>, forced: real, stats: Snapshot, m: Margins)
    requires stats.bounds != []
    ensures GridDecisions(devices, [], forced, stats, m) == []
  {
  }

  lemma NoBatteryYet(devices: seq<Device>, forced: real, allowed: bool, max: real)
    ensures BatteryDecisions(devices, [], forced, allowed, max) == []
  {
  }

  lemma OneMoreChange(devices: seq<Device>, picks: seq<nat>, i: nat, selected: seq<bool>, s: bool,
                      unreachable: set<int>)
    requires Picks(picks + [i], |devices|) && Picks(picks, |devices|) && |selected| == |picks| && i < |devices|
    ensures AnyChange(devices, picks + [i], selected + [s], unreachable)
       <==> AnyChange(devices, picks, selected, unreachable) || CountsAsChange(devices[i], s, unreachable)
  {
    hide CountsAsChange;
    var picks', selected' := picks + [i], selected + [s];
    assert picks'[|picks|] == i && selected'[|picks|] == s;
    if k :| 0 <= k < |picks| && CountsAsChange(devices[picks[k]], selected[k], unreachable) {
      assert picks'[k] == picks[k] && selected'[k] == selected[k];
    }
    if k :| 0 <= k < |picks'| && CountsAsChange(devices[picks'[k]], selected'[k], unreachable) {
      assert k < |picks| ==> picks'[k] == picks[k] && selected'[k] == selected[k];
    }
  }

  /** One more round of a pass. */
  lemma PassNext(devices: seq<Device>, picks: seq<nat>, k: nat, selected: seq<bool>, s: bool, unreachable: set<int>,
                 at: Moment)
    requires Picks(picks, |devices|) && k < |picks| && |selected| == k
    ensures var before := Applied(devices, picks[..k], selected, unreachable, at);
            && before[picks[k]] == devices[picks[k]]
            && Applied(devices, picks[..k + 1], selected + [s], unreachable, at)
               == before[picks[k] := Obey(devices[picks[k]], s, unreachable, at)]
    ensures SelectedPower(devices, picks[..k + 1], selected + [s])
         == SelectedPower(devices, picks[..k], selected) + if s then Consumption(devices[picks[k]]) else 0.0
    ensures AnyChange(devices, picks[..k + 1], selected + [s], unreachable)
       <==> AnyChange(devices, picks[..k], selected, unreachable) || CountsAsChange(devices[picks[k]], s, unreachable)
  {
    hide Obey, Consumption, CountsAsChange, AnyChange;
    assert picks[..k + 1][..k] == picks[..k] && (selected + [s])[..k] == selected;
    assert picks[..k + 1] == picks[..k] + [picks[k]];
    LastIsNew(picks[..k + 1], |devices|);
    AppliedElsewhere(devices, picks[..k], selected, unreachable, at, picks[k]);
    OneMoreChange(devices, picks[..k], picks[k], selected, s, unreachable);
  }

  lemma GridNext(devices: seq<Device>, picks: seq<nat>, k: nat, forced: real, stats: Snapshot, m: Margins)
    requires Picks(picks, |devices|) && k < |picks| && stats.bounds != []
    ensures var before := GridDecisions(devices, picks[..k], forced, stats, m);
            GridDecisions(devices, picks[..k + 1], forced, stats, m) ==
              before + [WantsGrid(devices[picks[k]], forced + SelectedPower(devices, picks[..k], before), stats, m)]
  {
    hide WantsGrid;
    assert picks[..k + 1][..k] == picks[..k];
  }

  lemma BatteryNext(devices: seq<Device>, picks: seq<nat>, k: nat, forced: real, allowed: bool, max: real)
    requires Picks(picks, |devices|) && k < |picks|
    ensures var before := BatteryDecisions(devices, picks[..k], forced, allowed, max);
            var sum := forced + SelectedPower(devices, picks[..k], before) + Consumption(devices[picks[k]]);
            var s := allowed && sum < max;
            BatteryDecisions(devices, picks[..k + 1], forced, allowed, max) == before + [s]
  {
    hide Consumption;
    assert picks[..k + 1][..k] == picks[..k];
  }

  lemma StatsHaveBuckets(stats: Stats)
    requires stats.Valid()
    ensures stats.slow.bounds != [] && stats.View().bounds == stats.slow.bounds
  {
  }

  lemma SnapAverage(stats: Stats)
    requires stats.Valid()
    ensures stats.snapAverage == stats.View().average
  {
  }

  class AlgoOffloadBattery {
    const inventory: seq<OnOff>
    const picks: seq<nat>
    const battery: Battery
    var offloadedPower: real
    var stateChanged: bool
    ghost var selected: seq<bool>

    constructor (inventory: seq<OnOff>, picks: seq<nat>, battery: Battery)
      ensures this.inventory == inventory && this.picks == picks && this.battery == battery
    {
      this.inventory, this.picks, this.battery := inventory, picks, battery;
      offloadedPower, stateChanged, selected := 0.0, false, [];
    }

    method ForcedPower() returns (p: real)
      requires Picks(picks, |inventory|) && Inventory(Views(inventory))
      ensures p == UncontrolledPower(Power(BatteryDeviceOf(Views(inventory))), Views(inventory), picks)
    {
      hide Consumption;
      var b := FindDevice(inventory, BATTERY_ID);
      p := inventory[b].GetPower();
      ghost var power := p;
      assert picks[..0] == [];
      for k := 0 to |picks|
        invariant p == UncontrolledPower(power, Views(inventory), picks[..k])
      {
        assert picks[..k + 1][..k] == picks[..k];
        if inventory[picks[k]].state {
          var c := inventory[picks[k]].GetExpectedConsumption();
          p := p - c;
        }
      }
      assert picks[..|picks|] == picks;
    }

    method Run(unreachable: set<int>, at: Moment)
      requires Distinct(inventory) && Picks(picks, |inventory|) && Inventory(Views(inventory))
      modifies this, inventory
      ensures selected == BatterySelection(old(Views(inventory)), picks, battery.State(), battery.config)
      ensures offloadedPower == SelectedPower(old(Views(inventory)), picks, selected)
      ensures Views(inventory) == Applied(old(Views(inventory)), picks, selected, unreachable, at)
      ensures stateChanged <==> AnyChange(old(Views(inventory)), picks, selected, unreachable)
    {
      hide Consumption, Obey, CountsAsChange, AnyChange, Inventory, PickSum, Applied, SelectedPower, BatteryDecisions;
      stateChanged := false;
      offloadedPower := 0.0;
      selected := [];
      ghost var before := Views(inventory);
      var forcedPower := ForcedPower();
      var offloadAllowed := battery.config.offload.enabled && battery.offloadAllowed;
      var offloadMax := battery.config.offloadMax as real;
      NothingYet(before, unreachable, at);
      NoBatteryYet(before, forcedPower, offloadAllowed, offloadMax);
      assert picks[..0] == [];
      for k := 0 to |picks|
        invariant battery.State() == old(battery.State()) && battery.config == old(battery.config)
        invariant selected == BatteryDecisions(before, picks[..k], forcedPower, offloadAllowed, offloadMax)
        invariant offloadedPower == SelectedPower(before, picks[..k], selected)
        invariant Views(inventory) == Applied(before, picks[..k], selected, unreachable, at)
        invariant stateChanged <==> AnyChange(before, picks[..k], selected, unreachable)
      {
        PassNext(before, picks, k, selected, true, unreachable, at);
        PassNext(before, picks, k, selected, false, unreachable, at);
        BatteryNext(before, picks, k, forcedPower, offloadAllowed, offloadMax);
        Step(picks[k], forcedPower, offloadAllowed, offloadMax, unreachable, at);
      }
      assert picks[..|picks|] == picks;
    }

    method Step(i: nat, forcedPower: real, offloadAllowed: bool, offloadMax: real, unreachable: set<int>, at: Moment)
      requires Distinct(inventory) && i < |inventory|
      modifies this, inventory
      ensures battery.State() == old(battery.State()) && battery.config == old(battery.config)
      ensures var d := old(Views(inventory))[i];
              var s := offloadAllowed && forcedPower + old(offloadedPower) + Consumption(d) < offloadMax;
              && selected == old(selected) + [s]
              && offloadedPower == old(offloadedPower) + (if s then Consumption(d) else 0.0)
              && Views(inventory) == old(Views(inventory))[i := Obey(d, s, unreachable, at)]
              && stateChanged == (old(stateChanged) || CountsAsChange(d, s, unreachable))
    {
      hide Consumption, Obey, CountsAsChange;
      var newState := false;
      if offloadAllowed {
        var activePower := forcedPower + offloadedPower;
        var consumption := inventory[i].GetExpectedConsumption();
        newState := activePower + consumption < offloadMax;
        if newState {
          offloadedPower := offloadedPower + consumption;
        }
      }
      var changed := Command(inventory, i, newState, unreachable, at);
      stateChanged := stateChanged || changed;
      selected := selected + [newState];
    }
  }
}
