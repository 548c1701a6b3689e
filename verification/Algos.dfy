/** The three switching passes: src/energy/AlgoForced.cpp, AlgoOffload.cpp and AlgoOffloadBattery.cpp. A pass works on
    the inventory through picks, the indices of its own devices in its own order. */
module Algos {
  import opened Series
  import opened HigherFrequencies
  import opened Statistics
  import opened BatteryLatch
  import opened Devices

  ghost predicate Picks(picks: seq<nat>, n: nat)
  {
    && (forall k :: 0 <= k < |picks| ==> picks[k] < n)
    && (forall k, l :: 0 <= k < l < |picks| ==> picks[k] != picks[l])
  }

  /** Whether the relay of a device throws: only a device with a relay can. */
  predicate Throws(d: Device, unreachable: set<int>)
  {
    d.config.hasControl && d.id in unreachable
  }

  /** What a pass does with one device: switch it only if needed, and count a change unless the relay threw. */
  function Obey(d: Device, wanted: bool, unreachable: set<int>, at: Moment): Device
  {
    if d.state != wanted then Switched(d, wanted, d.id !in unreachable, at) else d
  }

  predicate CountsAsChange(d: Device, wanted: bool, unreachable: set<int>)
  {
    d.state != wanted && !Throws(d, unreachable)
  }

  /** A command takes effect exactly when the device has a relay and it answers; and nothing but the state, its clock
      and its history changes. */
  lemma ObeyIs(d: Device, wanted: bool, unreachable: set<int>, at: Moment)
    ensures var d' := Obey(d, wanted, unreachable, at);
            && d'.state == (if d.config.hasControl && d.id !in unreachable then wanted else d.state)
            && (d'.state == d.state ==> d' == d)
            && d'.manual == d.manual && d'.manualTimeout == d.manualTimeout && d'.lastManual == d.lastManual
            && d'.offline == d.offline && d'.power == d.power
  {
  }

  lemma ObeyKeepsIdentity(d: Device, wanted: bool, unreachable: set<int>, at: Moment)
    ensures var d' := Obey(d, wanted, unreachable, at);
            && d'.id == d.id && d'.kind == d.kind && d'.config == d.config && d'.manual == d.manual
            && (d'.state == wanted || d' == d) && (d.config.hasControl && d.id !in unreachable ==> d'.state == wanted)
  {
  }

  lemma ReplaceSame(devices: seq<Device>, i: nat, wanted: bool, unreachable: set<int>, at: Moment)
    requires i < |devices|
    ensures SameDevices(devices, devices[i := Obey(devices[i], wanted, unreachable, at)])
  {
    ObeyKeepsIdentity(devices[i], wanted, unreachable, at);
  }

  // ---------------------------------------------------------------- forced pass

  datatype Forced = Forced(devices: seq<Device>, changed: bool, power: real, grid: real, battery: real)

  function ForcedPass(devices: seq<Device>, picks: seq<nat>, wanted: seq<bool>, unreachable: set<int>, at: Moment)
    : (r: Forced)
    requires Inventory(devices) && Picks(picks, |devices|) && |wanted| == |devices|
    ensures SameDevices(devices, r.devices) && Inventory(r.devices)
  {
    if picks == [] then Forced(devices, false, 0.0, 0.0, 0.0)
    else
      var n := |picks| - 1;
      ForcedStep(ForcedPass(devices, picks[..n], wanted, unreachable, at), picks[n], wanted[picks[n]], unreachable, at)
  }

  function ForcedStep(p: Forced, i: nat, wanted: bool, unreachable: set<int>, at: Moment): (r: Forced)
    requires Inventory(p.devices) && i < |p.devices|
    ensures SameDevices(p.devices, r.devices) && Inventory(r.devices)
  {
    var d := Obey(p.devices[i], wanted, unreachable, at);
    var devices := p.devices[i := d];
    ReplaceSame(p.devices, i, wanted, unreachable, at);
    InventorySame(p.devices, devices);
    assert devices[i] == d;
    var changed := p.changed || CountsAsChange(p.devices[i], wanted, unreachable);
    var c := if d.state then Consumption(d) else 0.0;
    if d.state && IsOnBattery(devices, d) then
      Forced(devices, changed, p.power + c, p.grid, p.battery + c)
    else
      Forced(devices, changed, p.power + c, p.grid + c, p.battery)
  }

  lemma InSnoc(picks: seq<nat>, i: nat)
    requires picks != []
    ensures i in picks <==> i in picks[..|picks| - 1] || i == picks[|picks| - 1]
  {
    assert picks == picks[..|picks| - 1] + [picks[|picks| - 1]];
  }

  lemma LastIsNew(picks: seq<nat>, n: nat)
    requires picks != [] && Picks(picks, n)
    ensures picks[|picks| - 1] !in picks[..|picks| - 1]
  {
  }

  /** Every picked device ends up as wanted unless it has no relay or the relay failed; the others are untouched. The
      order of the picks does not matter. */
  lemma {:induction false} ForcedDevices(devices: seq<Device>, picks: seq<nat>, wanted: seq<bool>,
                                         unreachable: set<int>, at: Moment, i: nat)
    requires Inventory(devices) && Picks(picks, |devices|) && |wanted| == |devices| && i < |devices|
    ensures ForcedPass(devices, picks, wanted, unreachable, at).devices[i]
         == if i in picks then Obey(devices[i], wanted[i], unreachable, at) else devices[i]
  {
    hide Inventory, IsOnBattery, Consumption, Obey, CountsAsChange;
    if picks != [] {
      var n := |picks| - 1;
      ForcedDevices(devices, picks[..n], wanted, unreachable, at, i);
      InSnoc(picks, i);
      LastIsNew(picks, |devices|);
      if i == picks[n] {
        assert ForcedPass(devices, picks[..n], wanted, unreachable, at).devices[i] == devices[i];
      }
    }
  }

  ghost predicate SomeChange(devices: seq<Device>, picks: seq<nat>, wanted: seq<bool>, unreachable: set<int>)
    requires Picks(picks, |devices|) && |wanted| == |devices|
  {
    exists k :: 0 <= k < |picks| && CountsAsChange(devices[picks[k]], wanted[picks[k]], unreachable)
  }

  /** A change is counted exactly when some picked device was not as wanted and its relay did not throw. */
  lemma {:induction false} ForcedChanged(devices: seq<Device>, picks: seq<nat>, wanted: seq<bool>,
                                         unreachable: set<int>, at: Moment)
    requires Inventory(devices) && Picks(picks, |devices|) && |wanted| == |devices|
    ensures ForcedPass(devices, picks, wanted, unreachable, at).changed
       <==> SomeChange(devices, picks, wanted, unreachable)
  {
    hide Inventory, IsOnBattery, Consumption, Obey, CountsAsChange;
    if picks != [] {
      var n := |picks| - 1;
      ForcedChanged(devices, picks[..n], wanted, unreachable, at);
      LastIsNew(picks, |devices|);
      ForcedDevices(devices, picks[..n], wanted, unreachable, at, picks[n]);
      if k :| 0 <= k < |picks| && CountsAsChange(devices[picks[k]], wanted[picks[k]], unreachable) {
        assert k < n ==> picks[..n][k] == picks[k];
      }
      if k :| 0 <= k < n && CountsAsChange(devices[picks[..n][k]], wanted[picks[..n][k]], unreachable) {
        assert picks[k] == picks[..n][k];
      }
    }
  }

  /** Sum of the weights of the picks. */
  function PickSum(weights: seq<real>, picks: seq<nat>): real
    requires Picks(picks, |weights|)
  {
    if picks == [] then 0.0 else PickSum(weights, picks[..|picks| - 1]) + weights[picks[|picks| - 1]]
  }

  /** The same sum in the order of the inventory. */
  function IndexSum(weights: seq<real>, picks: seq<nat>, n: nat): real
    requires n <= |weights|
  {
    if n == 0 then 0.0 else IndexSum(weights, picks, n - 1) + if n - 1 in picks then weights[n - 1] else 0.0
  }

  lemma {:induction false} IndexSumSnoc(weights: seq<real>, picks: seq<nat>, n: nat)
    requires n <= |weights| && picks != [] && Picks(picks, |weights|)
    ensures var last := picks[|picks| - 1];
            var before := IndexSum(weights, picks[..|picks| - 1], n);
            IndexSum(weights, picks, n) == before + if last < n then weights[last] else 0.0
  {
    if n > 0 {
      IndexSumSnoc(weights, picks, n - 1);
      InSnoc(picks, n - 1);
      LastIsNew(picks, |weights|);
    }
  }

  lemma {:induction false} IndexSumNone(weights: seq<real>, n: nat)
    requires n <= |weights|
    ensures IndexSum(weights, [], n) == 0.0
  {
    if n > 0 {
      IndexSumNone(weights, n - 1);
    }
  }

  /** The order of the picks does not change the sum. */
  lemma {:induction false} PickSumByIndex(weights: seq<real>, picks: seq<nat>)
    requires Picks(picks, |weights|)
    ensures PickSum(weights, picks) == IndexSum(weights, picks, |weights|)
  {
    if picks == [] {
      IndexSumNone(weights, |weights|);
    } else {
      PickSumByIndex(weights, picks[..|picks| - 1]);
      IndexSumSnoc(weights, picks, |weights|);
    }
  }

  lemma {:induction false} PickSumFrame(a: seq<real>, b: seq<real>, picks: seq<nat>)
    requires |a| == |b| && Picks(picks, |a|) && forall k :: 0 <= k < |picks| ==> a[picks[k]] == b[picks[k]]
    ensures PickSum(a, picks) == PickSum(b, picks)
  {
    if picks != [] {
      PickSumFrame(a, b, picks[..|picks| - 1]);
    }
  }

  /** Consumption of the devices that are on. */
  function OnWeights(devices: seq<Device>): (w: seq<real>)
    ensures |w| == |devices|
  {
    seq(|devices|, i requires 0 <= i < |devices| => if devices[i].state then Consumption(devices[i]) else 0.0)
  }

  /** Consumption of the devices that are on and not on the battery. */
  function GridWeights(devices: seq<Device>): (w: seq<real>)
    requires Inventory(devices)
    ensures |w| == |devices|
  {
    seq(|devices|, i requires 0 <= i < |devices| =>
      if devices[i].state && !IsOnBattery(devices, devices[i]) then Consumption(devices[i]) else 0.0)
  }

  /** The power split of the forced pass: everything that is on afterwards is counted once, as grid or as battery, in
      whatever order the devices come. */
  lemma {:induction false} ForcedPower(devices: seq<Device>, picks: seq<nat>, wanted: seq<bool>, unreachable: set<int>,
                                       at: Moment)
    requires Inventory(devices) && Picks(picks, |devices|) && |wanted| == |devices|
    ensures var r := ForcedPass(devices, picks, wanted, unreachable, at);
            r.power == PickSum(OnWeights(r.devices), picks) && r.power == r.grid + r.battery
  {
    hide Inventory, IsOnBattery, Consumption, Obey, CountsAsChange;
    if picks != [] {
      var n := |picks| - 1;
      var before := ForcedPass(devices, picks[..n], wanted, unreachable, at);
      var r := ForcedPass(devices, picks, wanted, unreachable, at);
      ForcedPower(devices, picks[..n], wanted, unreachable, at);
      LastIsNew(picks, |devices|);
      assert forall k :: 0 <= k < n ==> picks[..n][k] != picks[n];
      PickSumFrame(OnWeights(before.devices), OnWeights(r.devices), picks[..n]);
    }
  }

  /** When the forced pass counts no change, it switched nothing, and its grid power is the consumption of the picked
      devices that are on and not on the battery, whatever their order. */
  lemma {:induction false} QuietForcedPass(devices: seq<Device>, picks: seq<nat>, wanted: seq<bool>,
                                           unreachable: set<int>, at: Moment)
    requires Inventory(devices) && Picks(picks, |devices|) && |wanted| == |devices|
    requires !ForcedPass(devices, picks, wanted, unreachable, at).changed
    ensures var r := ForcedPass(devices, picks, wanted, unreachable, at);
            r.devices == devices && r.grid == PickSum(GridWeights(devices), picks)
  {
    hide Inventory, IsOnBattery, Consumption, Switched;
    if picks != [] {
      var n := |picks| - 1;
      QuietForcedPass(devices, picks[..n], wanted, unreachable, at);
      QuietObey(devices[picks[n]], wanted[picks[n]], unreachable, at);
      assert devices[picks[n] := devices[picks[n]]] == devices;
    }
  }

  lemma QuietObey(d: Device, wanted: bool, unreachable: set<int>, at: Moment)
    requires !CountsAsChange(d, wanted, unreachable)
    ensures Obey(d, wanted, unreachable, at) == d
  {
  }

  lemma TwoPicks(devices: seq<Device>, i: nat, j: nat, wanted: seq<bool>, unreachable: set<int>, at: Moment)
    requires Inventory(devices) && |wanted| == |devices| && i < |devices| && j < |devices| && i != j
    ensures var first := ForcedStep(Forced(devices, false, 0.0, 0.0, 0.0), i, wanted[i], unreachable, at);
            ForcedPass(devices, [i, j], wanted, unreachable, at) == ForcedStep(first, j, wanted[j], unreachable, at)
  {
    hide Inventory, ForcedStep;
    assert [i, j][..1] == [i] && [i][..0] == [];
    assert ForcedPass(devices, [], wanted, unreachable, at) == Forced(devices, false, 0.0, 0.0, 0.0);
    assert ForcedPass(devices, [i], wanted, unreachable, at)
        == ForcedStep(Forced(devices, false, 0.0, 0.0, 0.0), i, wanted[i], unreachable, at);
  }

  lemma LampAndBattery(lamp: Device, battery: Device)
    requires lamp.kind == TimeRangeDevice && lamp.id == 1 && lamp.config.batteryEnabled && lamp.config.controllerId == 0
    requires battery.kind == BatteryDevice && battery.id == BATTERY_ID && battery.config.controllerId == 0
    requires battery.config.enabled
    ensures Inventory([lamp, battery]) && IsOnBattery([lamp, battery], lamp) == !battery.state
  {
    assert [lamp, battery][1..][0] == battery;
  }

  /** While devices do change, the split does depend on the order of the pass: a device on the battery counts as battery
      power if it comes before the battery is put on the grid, and as grid power if it comes after. */
  lemma SplitDependsOnOrder(at: Moment) returns (devices: seq<Device>, wanted: seq<bool>)
    ensures |devices| == |wanted| == 2 && Inventory(devices)
    ensures ForcedPass(devices, [0, 1], wanted, {}, at).grid == 0.0
    ensures ForcedPass(devices, [1, 0], wanted, {}, at).grid == 100.0
  {
    hide Inventory, IsOnBattery, ForcedPass;
    var plain := DeviceConfig(true, true, false, 100.0, true, 0, 0, 0, 0, 0, 0, 0);
    var lamp := Device(1, TimeRangeDevice, plain, false, false, 0, true, 0, 0, 0, 0.0, []);
    var free := plain.(expected := 0.0);
    var battery := Device(BATTERY_ID, BatteryDevice, free, false, false, 0, false, 0, 0, 0, 0.0, []);
    var battery' := Obey(battery, true, {}, at);
    devices, wanted := [lamp, battery], [true, true];
    LampAndBattery(lamp, battery);
    LampAndBattery(lamp, battery');
    assert devices[1 := battery'] == [lamp, battery'];
    assert devices[0 := lamp] == devices && [lamp, battery'][0 := lamp] == [lamp, battery'];
    TwoPicks(devices, 0, 1, wanted, {}, at);
    TwoPicks(devices, 1, 0, wanted, {}, at);
  }

  // ---------------------------------------------------------------- offload passes

  /** The devices after each pick was told its decision. */
  function Applied(devices: seq<Device>, picks: seq<nat>, selected: seq<bool>, unreachable: set<int>, at: Moment)
    : (r: seq<Device>)
    requires Picks(picks, |devices|) && |selected| == |picks|
    ensures SameDevices(devices, r)
  {
    if picks == [] then devices
    else
      var n := |picks| - 1;
      var before := Applied(devices, picks[..n], selected[..n], unreachable, at);
      ReplaceSame(before, picks[n], selected[n], unreachable, at);
      before[picks[n] := Obey(before[picks[n]], selected[n], unreachable, at)]
  }

  lemma {:induction false} AppliedElsewhere(devices: seq<Device>, picks: seq<nat>, selected: seq<bool>,
                                            unreachable: set<int>, at: Moment, i: nat)
    requires Picks(picks, |devices|) && |selected| == |picks| && i < |devices| && i !in picks
    ensures Applied(devices, picks, selected, unreachable, at)[i] == devices[i]
  {
    hide Obey;
    if picks != [] {
      InSnoc(picks, i);
      AppliedElsewhere(devices, picks[..|picks| - 1], selected[..|picks| - 1], unreachable, at, i);
    }
  }

  lemma {:induction false} AppliedAt(devices: seq<Device>, picks: seq<nat>, selected: seq<bool>, unreachable: set<int>,
                                     at: Moment, k: nat)
    requires Picks(picks, |devices|) && |selected| == |picks| && k < |picks|
    ensures Applied(devices, picks, selected, unreachable, at)[picks[k]]
         == Obey(devices[picks[k]], selected[k], unreachable, at)
  {
    hide Obey;
    var n := |picks| - 1;
    LastIsNew(picks, |devices|);
    if k == n {
      AppliedElsewhere(devices, picks[..n], selected[..n], unreachable, at, picks[n]);
    } else {
      AppliedAt(devices, picks[..n], selected[..n], unreachable, at, k);
    }
  }

  lemma AppliedSome(devices: seq<Device>, picks: seq<nat>, selected: seq<bool>, unreachable: set<int>, at: Moment,
                    i: nat)
    requires Picks(picks, |devices|) && |selected| == |picks| && i < |devices|
    ensures var d := Applied(devices, picks, selected, unreachable, at)[i];
            if i in picks then exists s :: d == Obey(devices[i], s, unreachable, at) else d == devices[i]
  {
    hide Obey, Applied;
    if i in picks {
      var k :| 0 <= k < |picks| && picks[k] == i;
      AppliedAt(devices, picks, selected, unreachable, at, k);
    } else {
      AppliedElsewhere(devices, picks, selected, unreachable, at, i);
    }
  }

  ghost predicate AnyChange(devices: seq<Device>, picks: seq<nat>, selected: seq<bool>, unreachable: set<int>)
    requires Picks(picks, |devices|) && |selected| == |picks|
  {
    exists k :: 0 <= k < |picks| && CountsAsChange(devices[picks[k]], selected[k], unreachable)
  }

  /** Consumption of the selected devices. */
  function SelectedPower(devices: seq<Device>, picks: seq<nat>, selected: seq<bool>): real
    requires Picks(picks, |devices|) && |selected| == |picks|
  {
    if picks == [] then 0.0
    else
      var n := |picks| - 1;
      SelectedPower(devices, picks[..n], selected[..n]) + if selected[n] then Consumption(devices[picks[n]]) else 0.0
  }

  // grid

  datatype Margins = Margins(importMargin: real, precision: real)

  /** hysteresis: an on device stays while power lasts, an off one starts on the prediction. */
  function WantsGrid(d: Device, active: real, stats: Snapshot, m: Margins): bool
    requires stats.bounds != []
  {
    var c := Consumption(d);
    if d.state then c - (stats.average - active) < m.importMargin
    else
      match stats.Prediction(d.config.minOn, c + active)
      case None => false
      case Some(p) => p >= m.precision
  }

  function GridDecisions(devices: seq<Device>, picks: seq<nat>, forced: real, stats: Snapshot, m: Margins)
    : (r: seq<bool>)
    requires Picks(picks, |devices|) && stats.bounds != []
    ensures |r| == |picks|
  {
    if picks == [] then []
    else
      var n := |picks| - 1;
      var before := GridDecisions(devices, picks[..n], forced, stats, m);
      before + [WantsGrid(devices[picks[n]], forced + SelectedPower(devices, picks[..n], before), stats, m)]
  }

  /** Each decision looks only at the devices of higher priority: decisions never change when devices of lower
      priority are appended. */
  lemma {:induction false} DecisionsArePrefixStable(devices: seq<Device>, picks: seq<nat>, forced: real,
                                                    stats: Snapshot, m: Margins, k: nat)
    requires Picks(picks, |devices|) && stats.bounds != [] && k <= |picks|
    ensures GridDecisions(devices, picks[..k], forced, stats, m) == GridDecisions(devices, picks, forced, stats, m)[..k]
  {
    hide WantsGrid;
    if k < |picks| {
      var n := |picks| - 1;
      DecisionsArePrefixStable(devices, picks[..n], forced, stats, m, k);
      assert picks[..n][..k] == picks[..k];
    } else {
      assert picks[..k] == picks;
    }
  }

  /** The decision for pick k, in terms of the power selected before it. */
  lemma GridDecisionAt(devices: seq<Device>, picks: seq<nat>, forced: real, stats: Snapshot, m: Margins, k: nat)
    requires Picks(picks, |devices|) && stats.bounds != [] && k < |picks|
    ensures var selected := GridDecisions(devices, picks, forced, stats, m);
            var active := forced + SelectedPower(devices, picks[..k], selected[..k]);
            selected[k] == WantsGrid(devices[picks[k]], active, stats, m)
  {
    hide WantsGrid, SelectedPower;
    var selected := GridDecisions(devices, picks, forced, stats, m);
    DecisionsArePrefixStable(devices, picks, forced, stats, m, k);
    DecisionsArePrefixStable(devices, picks, forced, stats, m, k + 1);
    assert picks[..k + 1][..k] == picks[..k];
    assert selected[..k + 1][k] == selected[k];
  }

  /** A device kept on fits under the average: the forced power, the power selected up to and including it, stay below
      the average plus the import margin; and one switched off would not have fitted. */
  lemma KeptOnIffItFits(devices: seq<Device>, picks: seq<nat>, forced: real, stats: Snapshot, m: Margins, k: nat)
    requires Picks(picks, |devices|) && stats.bounds != [] && k < |picks| && devices[picks[k]].state
    ensures var selected := GridDecisions(devices, picks, forced, stats, m);
            selected[k] <==> forced + SelectedPower(devices, picks[..k], selected[..k]) + Consumption(devices[picks[k]])
                               < stats.average + m.importMargin
  {
    hide Consumption;
    GridDecisionAt(devices, picks, forced, stats, m, k);
  }

  /** End to end: after a stream of one-second samples, a device that is on is kept on if and only if the forced power
      and the power selected up to and including it stay below the mean of the smoothing window plus the import
      margin. */
  lemma KeptOnIffMeanAllows(devices: seq<Device>, picks: seq<nat>, forced: real, bounds: seq<real>,
                            times: Statistics.Times, exportMargin: real, stream: seq<real>, m: Margins, k: nat)
    requires Picks(picks, |devices|) && bounds != [] && k < |picks| && devices[picks[k]].state && stream != []
    ensures var selected := GridDecisions(devices, picks, forced, Observed(bounds, times, exportMargin, stream), m);
            var smoothed := LastN(stream, Max(times.smoothing, 1));
            var sum := forced + SelectedPower(devices, picks[..k], selected[..k]) + Consumption(devices[picks[k]]);
            smoothed != [] && (selected[k] <==> sum < Sum(smoothed) / |smoothed| as real + m.importMargin)
  {
    hide Consumption, SelectedPower, GridDecisions, Sum;
    KeptOnIffItFits(devices, picks, forced, Observed(bounds, times, exportMargin, stream), m, k);
  }

  /** The power pick k is judged by: forced power, power selected before it, its own, and the export margin. */
  function NeededPower(devices: seq<Device>, picks: seq<nat>, selected: seq<bool>, k: nat, forced: real,
                       exportMargin: real)
    : real
    requires Picks(picks, |devices|) && k < |picks| == |selected|
  {
    forced + SelectedPower(devices, picks[..k], selected[..k]) + Consumption(devices[picks[k]]) + exportMargin
  }

  /** At least the share precision of the last samples, as many as the window for this minimum on-time holds, had the
      power. */
  ghost predicate HadPower(stream: seq<real>, times: Statistics.Times, minOn: nat, power: real, precision: real)
  {
    var window :=
      if minOn <= times.fast then times.fast else if minOn <= times.medium then times.medium else times.slow;
    var held := LastN(stream, Max(window, 1));
    held != [] && Fraction(held, power) >= precision
  }

  /** The offload guarantee, end to end: if a device that is off is selected after a stream of one-second samples, and
      the power needed is within the buckets, then at least the share precision of its window's samples had that power
      to give. */
  lemma OffloadGuarantee(devices: seq<Device>, picks: seq<nat>, forced: real, bounds: seq<real>,
                         times: Statistics.Times, exportMargin: real, stream: seq<real>, m: Margins, k: nat)
    requires Picks(picks, |devices|) && k < |picks| && bounds != [] && Ascending(bounds) && !devices[picks[k]].state
    ensures var selected := GridDecisions(devices, picks, forced, Observed(bounds, times, exportMargin, stream), m);
            var need := NeededPower(devices, picks, selected, k, forced, exportMargin);
            selected[k] && need <= bounds[|bounds| - 1] ==>
              HadPower(stream, times, devices[picks[k]].config.minOn, need, m.precision)
  {
    hide Consumption, SelectedPower, GridDecisions, Fraction, LastN;
    var stats := Observed(bounds, times, exportMargin, stream);
    var selected := GridDecisions(devices, picks, forced, stats, m);
    var active := forced + SelectedPower(devices, picks[..k], selected[..k]);
    GridDecisionAt(devices, picks, forced, stats, m, k);
    if selected[k] && NeededPower(devices, picks, selected, k, forced, exportMargin) <= bounds[|bounds| - 1] {
      PredictionIsShare(stats, devices[picks[k]].config.minOn, Consumption(devices[picks[k]]) + active, m.precision);
    }
  }

  /** The other direction, one bucket coarser: a device that is off and was not selected had not even one bucket step
      more than it needed often enough, when the power needed is within the buckets. */
  lemma RejectionGuarantee(devices: seq<Device>, picks: seq<nat>, forced: real, bounds: seq<real>, max: real,
                           times: Statistics.Times, exportMargin: real, stream: seq<real>, m: Margins, k: nat)
    requires Picks(picks, |devices|) && k < |picks| && !devices[picks[k]].state
    requires bounds != [] && AreBuckets(bounds, 0.0, max, BUCKET_STEP)
    ensures var selected := GridDecisions(devices, picks, forced, Observed(bounds, times, exportMargin, stream), m);
            var need := NeededPower(devices, picks, selected, k, forced, exportMargin);
            !selected[k] && 0.0 <= need <= bounds[|bounds| - 1] ==>
              !HadPower(stream, times, devices[picks[k]].config.minOn, need + BUCKET_STEP, m.precision)
  {
    hide Consumption, SelectedPower, GridDecisions, Fraction, AreBuckets, LastN, Frequency;
    var stats := Observed(bounds, times, exportMargin, stream);
    var selected := GridDecisions(devices, picks, forced, stats, m);
    var device := devices[picks[k]];
    var active := forced + SelectedPower(devices, picks[..k], selected[..k]);
    var need := NeededPower(devices, picks, selected, k, forced, exportMargin);
    GridDecisionAt(devices, picks, forced, stats, m, k);
    if !selected[k] && 0.0 <= need <= bounds[|bounds| - 1] && stats.Held(device.config.minOn) != [] {
      assert need == Consumption(device) + active + exportMargin;
      ShortfallIsShare(stats, max, device.config.minOn, Consumption(device) + active, m.precision);
    }
  }

  /** The bound on the power needed is exact: for any device, window and positive precision there is a stream after
      which the device is selected, if it then needs more than the last bucket, although that power was never there.
      */
  lemma GuaranteeEndsAtLastBucket(devices: seq<Device>, picks: seq<nat>, forced: real, bounds: seq<real>,
                                  times: Statistics.Times, exportMargin: real, m: Margins, k: nat)
    returns (stream: seq<real>)
    requires Picks(picks, |devices|) && k < |picks| && bounds != [] && Ascending(bounds) && !devices[picks[k]].state
    requires 0.0 < m.precision <= 1.0
    ensures |stream| == 1
    ensures var selected := GridDecisions(devices, picks, forced, Observed(bounds, times, exportMargin, stream), m);
            var need := NeededPower(devices, picks, selected, k, forced, exportMargin);
            need > bounds[|bounds| - 1] ==>
              selected[k] && !HadPower(stream, times, devices[picks[k]].config.minOn, need, m.precision)
  {
    hide Consumption, SelectedPower, GridDecisions, Fraction, LastN, Frequency, Ascending;
    stream := [bounds[|bounds| - 1]];
    var stats := Observed(bounds, times, exportMargin, stream);
    var selected := GridDecisions(devices, picks, forced, stats, m);
    var device := devices[picks[k]];
    var active := forced + SelectedPower(devices, picks[..k], selected[..k]);
    GridDecisionAt(devices, picks, forced, stats, m, k);
    if NeededPower(devices, picks, selected, k, forced, exportMargin) > bounds[|bounds| - 1] {
      var need := NeededPower(devices, picks, selected, k, forced, exportMargin);
      assert need == Consumption(device) + active + exportMargin;
      SaturatedPrediction(bounds, times, exportMargin, device.config.minOn, Consumption(device) + active);
    }
  }

  // ---------------------------------------------------------------- offload on the battery

  function BatteryDecisions(devices: seq<Device>, picks: seq<nat>, forced: real, allowed: bool, max: real)
    : (r: seq<bool>)
    requires Picks(picks, |devices|)
    ensures |r| == |picks|
  {
    if picks == [] then []
    else
      var n := |picks| - 1;
      var before := BatteryDecisions(devices, picks[..n], forced, allowed, max);
      before + [allowed && forced + SelectedPower(devices, picks[..n], before) + Consumption(devices[picks[n]]) < max]
  }

  /** Power on the battery that the pass cannot control. */
  function UncontrolledPower(batteryPower: real, devices: seq<Device>, picks: seq<nat>): real
    requires Picks(picks, |devices|)
  {
    batteryPower - PickSum(OnWeights(devices), picks)
  }

  /** What AlgoOffloadBattery::Run selects. */
  function BatterySelection(devices: seq<Device>, picks: seq<nat>, b: BatteryState, cfg: BatteryConfig): (r: seq<bool>)
    requires Picks(picks, |devices|) && Inventory(devices)
    ensures |r| == |picks|
  {
    BatteryDecisions(devices, picks, UncontrolledPower(Power(BatteryDeviceOf(devices)), devices, picks),
                     cfg.offload.enabled && b.offloadAllowed, cfg.offloadMax as real)
  }

  /** The cap on the measured total: when the pass selects any device, battery power plus what it adds less what it
      takes away stays below the maximum, and offload is allowed. */
  lemma SelectionCap(devices: seq<Device>, picks: seq<nat>, b: BatteryState, cfg: BatteryConfig)
    requires Picks(picks, |devices|) && Inventory(devices)
    ensures var selected := BatterySelection(devices, picks, b, cfg);
            true in selected ==>
              && cfg.offload.enabled && b.offloadAllowed
              && Power(BatteryDeviceOf(devices)) + NetPower(devices, picks, selected) < cfg.offloadMax as real
  {
    hide Inventory, Power;
    var power := Power(BatteryDeviceOf(devices));
    CappedTotal(power, devices, picks, BatterySelection(devices, picks, b, cfg));
    OffloadCap(devices, picks, UncontrolledPower(power, devices, picks), cfg.offload.enabled && b.offloadAllowed,
               cfg.offloadMax as real);
  }

  /** The battery pass itself: a device is selected exactly when battery offload is enabled and allowed, and the
      measured power of the battery, less what the devices of the pass draw now, plus what was selected before it,
      plus its own consumption, stays below the maximum. */
  lemma BatterySelectionAt(devices: seq<Device>, picks: seq<nat>, b: BatteryState, cfg: BatteryConfig, k: nat)
    requires Picks(picks, |devices|) && Inventory(devices) && k < |picks|
    ensures var selected := BatterySelection(devices, picks, b, cfg);
            var sum := Power(BatteryDeviceOf(devices)) - PickSum(OnWeights(devices), picks)
                       + SelectedPower(devices, picks[..k], selected[..k]) + Consumption(devices[picks[k]]);
            selected[k] <==> cfg.offload.enabled && b.offloadAllowed && sum < cfg.offloadMax as real
  {
    hide Inventory, Power, Consumption, SelectedPower, PickSum, OnWeights;
    BatteryDecisionAt(devices, picks, UncontrolledPower(Power(BatteryDeviceOf(devices)), devices, picks),
                      cfg.offload.enabled && b.offloadAllowed, cfg.offloadMax as real, k);
  }

  lemma {:induction false} BatteryDecisionsPrefix(devices: seq<Device>, picks: seq<nat>, forced: real, allowed: bool,
                                                  max: real, k: nat)
    requires Picks(picks, |devices|) && k <= |picks|
    ensures BatteryDecisions(devices, picks[..k], forced, allowed, max)
         == BatteryDecisions(devices, picks, forced, allowed, max)[..k]
  {
    hide Consumption, SelectedPower;
    if k < |picks| {
      var n := |picks| - 1;
      BatteryDecisionsPrefix(devices, picks[..n], forced, allowed, max, k);
      assert picks[..n][..k] == picks[..k];
    } else {
      assert picks[..k] == picks;
    }
  }

  /** A device is selected exactly when offload is allowed and it fits below the maximum at its turn. */
  lemma BatteryDecisionAt(devices: seq<Device>, picks: seq<nat>, forced: real, allowed: bool, max: real, k: nat)
    requires Picks(picks, |devices|) && k < |picks|
    ensures var selected := BatteryDecisions(devices, picks, forced, allowed, max);
            var sum := forced + SelectedPower(devices, picks[..k], selected[..k]) + Consumption(devices[picks[k]]);
            selected[k] <==> allowed && sum < max
  {
    hide Consumption, SelectedPower;
    var selected := BatteryDecisions(devices, picks, forced, allowed, max);
    BatteryDecisionsPrefix(devices, picks, forced, allowed, max, k);
    BatteryDecisionsPrefix(devices, picks, forced, allowed, max, k + 1);
    assert picks[..k + 1][..k] == picks[..k];
    assert selected[..k + 1][k] == selected[k];
  }

  /** As soon as any device is selected, the battery's total stays below the maximum. */
  lemma {:induction false} OffloadCap(devices: seq<Device>, picks: seq<nat>, forced: real, allowed: bool, max: real)
    requires Picks(picks, |devices|)
    ensures var selected := BatteryDecisions(devices, picks, forced, allowed, max);
            true in selected ==> allowed && forced + SelectedPower(devices, picks, selected) < max
  {
    hide Consumption;
    if picks != [] {
      var n := |picks| - 1;
      OffloadCap(devices, picks[..n], forced, allowed, max);
      var before := BatteryDecisions(devices, picks[..n], forced, allowed, max);
      var selected := BatteryDecisions(devices, picks, forced, allowed, max);
      assert selected[..n] == before;
    }
  }

  /** Consumption added by devices newly selected, less that of on devices no longer selected. */
  function NetPower(devices: seq<Device>, picks: seq<nat>, selected: seq<bool>): real
    requires Picks(picks, |devices|) && |selected| == |picks|
  {
    if picks == [] then 0.0
    else
      var n := |picks| - 1;
      var d := devices[picks[n]];
      NetPower(devices, picks[..n], selected[..n])
      + if selected[n] && !d.state then Consumption(d) else if d.state && !selected[n] then -Consumption(d) else 0.0
  }

  /** The total the cap is about: measured battery power plus what the pass adds less what it takes away. */
  lemma {:induction false} CappedTotal(batteryPower: real, devices: seq<Device>, picks: seq<nat>, selected: seq<bool>)
    requires Picks(picks, |devices|) && |selected| == |picks|
    ensures UncontrolledPower(batteryPower, devices, picks) + SelectedPower(devices, picks, selected)
         == batteryPower + NetPower(devices, picks, selected)
  {
    hide Consumption;
    if picks != [] {
      var n := |picks| - 1;
      CappedTotal(batteryPower, devices, picks[..n], selected[..n]);
    }
  }
}
