/** One second of the devices manager, src/thread/DevicesManager.cpp, as a function: classification, forced pass,
    cooldown gate, the two offload passes, timed manual periods. */
module Managers {
  import opened Series
  import opened Statistics
  import opened BatteryLatch
  import opened Devices
  import opened Algos

  /** What a tick depends on besides the devices. order is the address order of the devices, in which the forced ones
      are kept; unreachable holds the ids whose relay does not answer. */
  datatype Env = Env(
    at: Moment, schedules: seq<Schedules>, unreachable: set<int>, gridOffline: bool, chargeActive: bool,
    order: seq<nat>,
    stats: Snapshot, margins: Margins, cooldown: nat)

  datatype Manager = Manager(
    devices: seq<Device>, battery: BatteryState, batteryConfig: BatteryConfig, lastChange: int)

  ghost predicate Permutation(order: seq<nat>, n: nat)
  {
    Picks(order, n) && forall i :: 0 <= i < n ==> i in order
  }

  ghost predicate Ready(m: Manager, env: Env)
  {
    && Inventory(m.devices) && |env.schedules| == |m.devices| && Permutation(env.order, |m.devices|)
    && env.stats.bounds != [] && m.lastChange <= env.at.mono
  }

  // ---------------------------------------------------------------- classification

  datatype Class = Ignored | ForcedTo(on: bool) | OnGrid | OnBattery

  /** None stands for a decision that throws. */
  function Wanted(m: Manager, i: nat, env: Env): Option<WantedState>
    requires i < |m.devices| == |env.schedules|
  {
    var d := m.devices[i];
    if d.kind == BatteryDevice then
      Some(BatteryWanted(m.battery, m.batteryConfig, d.config.hasControl, d.manual, env.gridOffline, env.chargeActive,
                         env.at.mono - d.lastOn, d.config.minOn))
    else TimeRangeWanted(d, env.schedules[i], env.at)
  }

  function ClassOf(m: Manager, i: nat, env: Env): Option<Class>
    requires i < |m.devices| == |env.schedules| && Inventory(m.devices)
  {
    var d := m.devices[i];
    if d.offline || !d.config.enabled then Some(Ignored)
    else
      match Wanted(m, i, env)
      case None => None
      case Some(On) => Some(ForcedTo(true))
      case Some(Off) => Some(ForcedTo(false))
      case Some(Unchanged) => Some(ForcedTo(d.state))
      case Some(Offload) => Some(if Devices.IsOnBattery(m.devices, d) then OnBattery else OnGrid)
  }

  /** A decision that throws ends the tick before any device is switched. */
  predicate Aborts(m: Manager, env: Env)
    requires |m.devices| == |env.schedules| && Inventory(m.devices)
  {
    exists i :: 0 <= i < |m.devices| && ClassOf(m, i, env).None?
  }

  /** A device whose decision gets as far as the remainder, and whose lookup goes beyond the retention. */
  predicate Overlooks(d: Device, s: Schedules, at: Moment)
  {
    && d.kind != BatteryDevice && d.config.enabled && !d.offline && !d.manual && !s.force && s.remainder
    && (if d.state then
          at.mono - d.lastOn >= d.config.minOn && (d.config.maxOn == 0 || at.mono - d.lastOn <= d.config.maxOn)
        else at.mono - d.lastOff >= d.config.minOff)
    && d.config.minOnForLast > d.config.retention
  }

  /** A tick is lost, for all devices and whatever the battery's state, exactly when some device in use and free to
      switch is in its remainder range with a lookup longer than the retention. */
  lemma AbortsIff(m: Manager, env: Env)
    requires |m.devices| == |env.schedules| && Inventory(m.devices)
    ensures Aborts(m, env) <==> exists i :: 0 <= i < |m.devices| && Overlooks(m.devices[i], env.schedules[i], env.at)
    ensures (forall i :: 0 <= i < |m.devices| ==> m.devices[i].config.minOnForLast <= m.devices[i].config.retention) ==>
      !Aborts(m, env)
  {
    hide Inventory, IsOnBattery, BatteryWanted;
    forall i | 0 <= i < |m.devices|
      ensures ClassOf(m, i, env).None? <==> Overlooks(m.devices[i], env.schedules[i], env.at)
    {
    }
  }

  /** It happens: a heater in its remainder range, with a lookup of 2 seconds and a retention of 1, ends the tick. */
  lemma AbortHappens(battery: BatteryState, policy: BatteryConfig) returns (m: Manager, env: Env)
    ensures Ready(m, env) && Aborts(m, env) && m.battery == battery && m.batteryConfig == policy
  {
    hide Inventory, BatteryWanted, Aborts;
    var config := DeviceConfig(true, true, false, 1.0, false, 0, 0, 0, 0, 1, 2, 1);
    var heater := Device(1, TimeRangeDevice, config, false, false, 0, false, 0, 0, 0, 0.0, []);
    var passive :=
      Device(BATTERY_ID, BatteryDevice, config.(enabled := false), false, false, 0, false, 0, 0, 0, 0.0, []);
    m := Manager([heater, passive], battery, policy, 0);
    var s, none := Schedules(false, true, false), Schedules(false, false, false);
    env := Env(Moment(100, 100), [s, none], {}, false, false, [0, 1],
               Snapshot([0.0], [], [], [], 0, 0, 0.0, 0.0), Margins(0.0, 1.0), 0);
    PairInventory(heater, passive);
    assert env.order[0] == 0 && env.order[1] == 1;
    AbortsIff(m, env);
    assert Overlooks(m.devices[0], env.schedules[0], env.at);
  }

  function Classes(m: Manager, env: Env): (r: seq<Class>)
    requires |m.devices| == |env.schedules| && Inventory(m.devices) && !Aborts(m, env)
    ensures |r| == |m.devices| && forall i :: 0 <= i < |r| ==> Some(r[i]) == ClassOf(m, i, env)
  {
    seq(|m.devices|, i requires 0 <= i < |m.devices| =>
      assert ClassOf(m, i, env).Some?; ClassOf(m, i, env).value)
  }

  datatype Role = ForcedRole | GridRole | BatteryRole

  predicate Plays(c: Class, r: Role)
  {
    match r
    case ForcedRole => c.ForcedTo?
    case GridRole => c.OnGrid?
    case BatteryRole => c.OnBattery?
  }

  /** The indices of the devices with a role, in the given order. */
  function Select(order: seq<nat>, classes: seq<Class>, r: Role): (s: seq<nat>)
    requires Picks(order, |classes|)
    ensures forall i :: i in s <==> i in order && i < |classes| && Plays(classes[i], r)
    ensures Picks(s, |classes|)
  {
    if order == [] then []
    else
      var n := |order| - 1;
      assert order == order[..n] + [order[n]];
      Select(order[..n], classes, r) + if Plays(classes[order[n]], r) then [order[n]] else []
  }

  lemma EachPriority(s: seq<nat>, n: nat)
    requires |s| == n && forall i :: 0 <= i < n ==> s[i] == i
    ensures Picks(s, n) && forall i :: 0 <= i < n ==> s[i] == i && i in s
  {
    forall i | 0 <= i < n
      ensures i in s
    {
      assert s[i] == i;
    }
  }

  function Priorities(n: nat): (s: seq<nat>)
    ensures Picks(s, n) && |s| == n && forall i :: 0 <= i < n ==> s[i] == i && i in s
  {
    var s: seq<nat> := seq(n, i => i);
    EachPriority(s, n);
    s
  }

  /** The devices with a role, by priority. */
  function Picked(classes: seq<Class>, r: Role): (s: seq<nat>)
    ensures Picks(s, |classes|)
  {
    Select(Priorities(|classes|), classes, r)
  }

  predicate InOrder(s: seq<nat>)
  {
    forall k, l :: 0 <= k < l < |s| ==> s[k] < s[l]
  }

  lemma InOrderSnoc(s: seq<nat>, i: nat)
    requires InOrder(s) && forall j: nat :: j in s ==> j < i
    ensures InOrder(s + [i])
  {
    forall k, l | 0 <= k < l < |s| + 1
      ensures (s + [i])[k] < (s + [i])[l]
    {
      assert s[k] in s;
    }
  }

  lemma InOrderInit(s: seq<nat>)
    requires InOrder(s) && s != []
    ensures var n := |s| - 1;
            InOrder(s[..n]) && (forall j: nat :: j in s[..n] ==> j < s[n]) && s == s[..n] + [s[n]]
  {
  }

  /** A collection keeps the devices in their order of priority. */
  lemma {:induction false} SelectInOrder(order: seq<nat>, classes: seq<Class>, r: Role)
    requires Picks(order, |classes|) && InOrder(order)
    ensures InOrder(Select(order, classes, r))
  {
    hide InOrder;
    if order == [] {
      NothingInOrder();
    } else {
      var n := |order| - 1;
      InOrderInit(order);
      SelectInOrder(order[..n], classes, r);
      InOrderSnoc(Select(order[..n], classes, r), order[n]);
      assert Select(order[..n], classes, r) + [] == Select(order[..n], classes, r);
    }
  }

  lemma NothingInOrder()
    ensures InOrder([])
  {
  }

  lemma PickedByPriority(classes: seq<Class>, r: Role)
    ensures InOrder(Picked(classes, r))
    ensures forall i: nat :: i in Picked(classes, r) <==> i < |classes| && Plays(classes[i], r)
  {
    SelectInOrder(Priorities(|classes|), classes, r);
  }

  /** Every device has exactly one class, and an enabled online one is in exactly one of the three collections. */
  lemma OneCollectionEach(m: Manager, env: Env, i: nat)
    requires Ready(m, env) && !Aborts(m, env) && i < |m.devices|
    ensures var classes, all := Classes(m, env), Priorities(|m.devices|);
            var f, g, b := i in Select(env.order, classes, ForcedRole), i in Select(all, classes, GridRole),
              i in Select(all, classes, BatteryRole);
            && !(f && g) && !(f && b) && !(g && b)
            && (f || g || b <==> !m.devices[i].offline && m.devices[i].config.enabled)
  {
    hide Inventory, Wanted, IsOnBattery, Select;
  }

  // ---------------------------------------------------------------- the tick

  datatype Outcome = Outcome(
    forced: Forced, offloads: bool, gridSelected: seq<bool>, afterGrid: seq<Device>, batterySelected: seq<bool>,
    devices: seq<Device>, changed: bool)

  /** (unsigned int)(now - last_change_ts) >= cooldown: the elapsed seconds are cut to 32 bits. */
  predicate CooledDown(m: Manager, env: Env)
  {
    (env.at.mono - m.lastChange) % 0x1_0000_0000 >= env.cooldown
  }

  function ForcedStates(classes: seq<Class>): (r: seq<bool>)
    ensures |r| == |classes|
  {
    seq(|classes|, i requires 0 <= i < |classes| => classes[i].ForcedTo? && classes[i].on)
  }

  function ForcedRound(m: Manager, env: Env): (f: Forced)
    requires Ready(m, env) && !Aborts(m, env)
    ensures SameDevices(m.devices, f.devices) && Inventory(f.devices)
  {
    var classes := Classes(m, env);
    ForcedPass(m.devices, Select(env.order, classes, ForcedRole), ForcedStates(classes), env.unreachable, env.at)
  }

  /** An offload pass keeps the inventory in order. */
  ghost function AfterPass(devices: seq<Device>, picks: seq<nat>, selected: seq<bool>, env: Env): (r: seq<Device>)
    requires Inventory(devices) && Picks(picks, |devices|) && |selected| == |picks|
    ensures SameDevices(devices, r) && Inventory(r)
    ensures r == Applied(devices, picks, selected, env.unreachable, env.at)
  {
    InventorySame(devices, Applied(devices, picks, selected, env.unreachable, env.at));
    Applied(devices, picks, selected, env.unreachable, env.at)
  }

  /** Both offload passes, one after the other. */
  ghost function OffloadRound(forced: Forced, classes: seq<Class>, battery: BatteryState, config: BatteryConfig,
                              env: Env)
    : (o: Outcome)
    requires env.stats.bounds != [] && Inventory(forced.devices) && |classes| == |forced.devices|
    ensures SameDevices(forced.devices, o.devices) && o.offloads && o.forced == forced
    ensures |o.gridSelected| == |Picked(classes, GridRole)| && |o.batterySelected| == |Picked(classes, BatteryRole)|
    ensures |o.afterGrid| == |forced.devices|
  {
    var grid, onBattery := Picked(classes, GridRole), Picked(classes, BatteryRole);
    var gridSelected := GridDecisions(forced.devices, grid, forced.grid, env.stats, env.margins);
    var afterGrid := AfterPass(forced.devices, grid, gridSelected, env);
    var batterySelected := BatterySelection(afterGrid, onBattery, battery, config);
    Outcome(forced, true, gridSelected, afterGrid, batterySelected,
            AfterPass(afterGrid, onBattery, batterySelected, env),
            || AnyChange(forced.devices, grid, gridSelected, env.unreachable)
            || AnyChange(afterGrid, onBattery, batterySelected, env.unreachable))
  }

  /** The offload passes, if the forced pass changed nothing and the cooldown has passed. */
  ghost function GatedRound(forced: Forced, classes: seq<Class>, m: Manager, env: Env): (o: Outcome)
    requires env.stats.bounds != [] && Inventory(forced.devices) && |classes| == |forced.devices|
    ensures SameDevices(forced.devices, o.devices)
  {
    if CooledDown(m, env) && !forced.changed then OffloadRound(forced, classes, m.battery, m.batteryConfig, env)
    else Outcome(forced, false, [], forced.devices, [], forced.devices, forced.changed)
  }

  ghost function Round(m: Manager, env: Env): (o: Outcome)
    requires Ready(m, env) && !Aborts(m, env)
    ensures SameDevices(m.devices, o.devices)
  {
    GatedRound(ForcedRound(m, env), Classes(m, env), m, env)
  }

  lemma RoundIs(m: Manager, env: Env)
    requires Ready(m, env) && !Aborts(m, env)
    ensures var forced, classes := ForcedRound(m, env), Classes(m, env);
            && Round(m, env).forced == forced && (Round(m, env).offloads <==> CooledDown(m, env) && !forced.changed)
            && ((env.at.mono - m.lastChange) % 0x1_0000_0000 >= env.cooldown && !forced.changed ==>
                  Round(m, env) == OffloadRound(forced, classes, m.battery, m.batteryConfig, env))
            && ((env.at.mono - m.lastChange) % 0x1_0000_0000 < env.cooldown || forced.changed ==>
                  Round(m, env).devices == forced.devices && Round(m, env).changed == forced.changed)
  {
    hide ForcedRound, OffloadRound, Classes, Aborts, Inventory;
  }

  /** Timed manual periods that end, on the enabled devices. */
  function SpecificAll(devices: seq<Device>, at: Moment): (r: seq<Device>)
    ensures SameDevices(devices, r)
  {
    seq(|devices|, i requires 0 <= i < |devices| =>
      if devices[i].config.enabled then Specific(devices[i], at) else devices[i])
  }

  ghost function Tick(m: Manager, env: Env): (r: Manager)
    requires Ready(m, env)
    ensures SameDevices(m.devices, r.devices)
  {
    if Aborts(m, env) then m
    else
      var o := Round(m, env);
      m.(devices := SpecificAll(o.devices, env.at), lastChange := if o.changed then env.at.mono else m.lastChange)
  }

  // ---------------------------------------------------------------- what one tick does to one device

  /** The device as the passes leave it, before timed manual periods end. */
  ghost predicate Handled(d: Device, d': Device, c: Class, offloads: bool, env: Env)
  {
    match c
    case Ignored => d' == d
    case ForcedTo(on) => d' == Obey(d, on, env.unreachable, env.at)
    case _ => d' == d || (offloads && exists s :: d' == Obey(d, s, env.unreachable, env.at))
  }

  /** An ignored device is left alone, a forced one obeys, and an offload device is only touched by an offload pass. */
  lemma RoundHandles(m: Manager, env: Env, i: nat)
    requires Ready(m, env) && !Aborts(m, env) && i < |m.devices|
    ensures Handled(m.devices[i], Round(m, env).devices[i], Classes(m, env)[i], Round(m, env).offloads, env)
  {
    hide Inventory, Obey, ForcedPass, CooledDown, ClassOf, Select, OffloadRound;
    var classes := Classes(m, env);
    ForcedDevices(m.devices, Select(env.order, classes, ForcedRole), ForcedStates(classes), env.unreachable, env.at, i);
    if Round(m, env).offloads {
      OffloadHandles(ForcedRound(m, env), classes, m, env, i);
    }
  }

  lemma OffloadHandles(forced: Forced, classes: seq<Class>, m: Manager, env: Env, i: nat)
    requires env.stats.bounds != [] && Inventory(forced.devices) && i < |classes| == |forced.devices|
    ensures var d, d' := forced.devices[i], OffloadRound(forced, classes, m.battery, m.batteryConfig, env).devices[i];
            || d' == d
            || ((classes[i].OnGrid? || classes[i].OnBattery?)
                && exists s :: d' == Obey(d, s, env.unreachable, env.at))
  {
    hide Inventory, Obey, Applied, GridDecisions, BatteryDecisions, AnyChange, Select, BatterySelection;
    var all, o := Priorities(|classes|), OffloadRound(forced, classes, m.battery, m.batteryConfig, env);
    var grid, battery := Select(all, classes, GridRole), Select(all, classes, BatteryRole);
    AppliedSome(forced.devices, grid, o.gridSelected, env.unreachable, env.at, i);
    AppliedSome(o.afterGrid, battery, o.batterySelected, env.unreachable, env.at, i);
  }

  /** A device whose wanted state is UNCHANGED is switched by no pass. */
  lemma UnchangedIsUntouched(m: Manager, env: Env, i: nat)
    requires Ready(m, env) && !Aborts(m, env) && i < |m.devices| && Wanted(m, i, env) == Some(Unchanged)
    ensures Round(m, env).devices[i] == m.devices[i]
  {
    hide Round, Wanted;
    RoundHandles(m, env, i);
  }

  /** When an offload pass may run: no forced device changed, and at least the cooldown since the last change. */
  lemma OffloadsOnlyWhenQuiet(m: Manager, env: Env)
    requires Ready(m, env) && !Aborts(m, env) && Round(m, env).offloads
    ensures !Round(m, env).forced.changed && env.at.mono - m.lastChange >= env.cooldown
  {
    hide Inventory, Round, ForcedRound, OffloadRound;
    RoundIs(m, env);
  }

  /** The offload passes run exactly when no forced device changed and the elapsed seconds since the last change, cut
      to 32 bits, reach the cooldown. */
  lemma OffloadsIff(m: Manager, env: Env)
    requires Ready(m, env) && !Aborts(m, env)
    ensures Round(m, env).offloads <==>
            !ForcedRound(m, env).changed && (env.at.mono - m.lastChange) % 0x1_0000_0000 >= env.cooldown
  {
    hide Inventory, Round, ForcedRound, OffloadRound;
    RoundIs(m, env);
  }

  /** A disabled device is left alone altogether, and an offline one but for the end of its manual period. */
  lemma UnusedIsUntouched(m: Manager, env: Env, i: nat)
    requires Ready(m, env) && i < |m.devices|
    ensures !m.devices[i].config.enabled ==> Tick(m, env).devices[i] == m.devices[i]
    ensures m.devices[i].offline && !Aborts(m, env) ==>
      Tick(m, env).devices[i] == if m.devices[i].config.enabled then Specific(m.devices[i], env.at) else m.devices[i]
  {
    hide Inventory, Round, Aborts, Specific;
    if !Aborts(m, env) {
      RoundHandles(m, env, i);
    }
  }

  /** Minimum times for one tick: the manager switches a time-range device off only when it is automatic and has been on
      for minOn, and on only when it is automatic and has been off for minOff. The clocks follow every switch. */
  ghost predicate TimelySwitch(d: Device, d': Device, now: int)
  {
    && (d'.state == d.state ==> d'.lastOn == d.lastOn && d'.lastOff == d.lastOff)
    && (d.state && !d'.state ==>
          !d.manual && now - d.lastOn >= d.config.minOn && d'.lastOff == now && d'.lastOn == d.lastOn)
    && (!d.state && d'.state ==>
          !d.manual && now - d.lastOff >= d.config.minOff && d'.lastOn == now && d'.lastOff == d.lastOff)
  }

  lemma HandledTimely(d: Device, d': Device, c: Class, offloads: bool, env: Env, s: Schedules, onBattery: bool)
    requires Handled(d, d', c, offloads, env)
    requires c == Ignored || match TimeRangeWanted(d, s, env.at)
                             case None => false
                             case Some(On) => c == ForcedTo(true)
                             case Some(Off) => c == ForcedTo(false)
                             case Some(Unchanged) => c == ForcedTo(d.state)
                             case Some(Offload) => c == if onBattery then OnBattery else OnGrid
    ensures TimelySwitch(d, d', env.at.mono) && d'.manual == d.manual && d'.manualTimeout == d.manualTimeout
    ensures d'.lastManual == d.lastManual
  {
    hide WantRemainder;
  }

  lemma TickTimely(m: Manager, env: Env, i: nat)
    requires Ready(m, env) && i < |m.devices| && m.devices[i].kind != BatteryDevice
    ensures TimelySwitch(m.devices[i], Tick(m, env).devices[i], env.at.mono)
  {
    hide Round, TimeRangeWanted, Obey, Aborts, Inventory;
    if !Aborts(m, env) {
      var d := m.devices[i];
      RoundHandles(m, env, i);
      HandledTimely(d, Round(m, env).devices[i], Classes(m, env)[i], Round(m, env).offloads, env, env.schedules[i],
                    Devices.IsOnBattery(m.devices, d));
    }
  }

  predicate OnTimeOk(d: Device, now: int)
  {
    d.config.maxOn == 0 || now - d.lastOn <= d.config.maxOn || now - d.lastOn < d.config.minOn
  }

  /** Maximum time: a tick whose relay obeys leaves a time-range device automatic and on for too long exactly when it
      was on for too long in a manual period that ends in this very tick. */
  lemma MaxOnIff(m: Manager, env: Env, i: nat)
    requires Ready(m, env) && !Aborts(m, env) && i < |m.devices| && m.devices[i].kind != BatteryDevice
    requires m.devices[i].config.enabled && !m.devices[i].offline && m.devices[i].config.hasControl
    requires m.devices[i].id !in env.unreachable
    ensures var d, d' := m.devices[i], Tick(m, env).devices[i];
            d'.state && !d'.manual && !OnTimeOk(d', env.at.mono) <==>
              d.state && d.manual && ManualExpires(d, env.at) && !OnTimeOk(d, env.at.mono)
  {
    hide Round, Inventory, IsOnBattery, TimeRangeWanted, Obey, Handled, OnTimeOk, ManualExpires;
    var d := m.devices[i];
    RoundHandles(m, env, i);
    HandledOnTime(d, Round(m, env).devices[i], Classes(m, env)[i], Round(m, env).offloads, env, env.schedules[i],
                  Devices.IsOnBattery(m.devices, d));
    SpecificOnTime(d, Round(m, env).devices[i], env);
  }

  /** The passes leave an automatic device that is on within bounds, and a manual one as it is. */
  lemma HandledOnTime(d: Device, d': Device, c: Class, offloads: bool, env: Env, s: Schedules, onBattery: bool)
    requires Handled(d, d', c, offloads, env) && d.config.hasControl && d.id !in env.unreachable
    requires match TimeRangeWanted(d, s, env.at)
             case None => false
             case Some(On) => c == ForcedTo(true)
             case Some(Off) => c == ForcedTo(false)
             case Some(Unchanged) => c == ForcedTo(d.state)
             case Some(Offload) => c == if onBattery then OnBattery else OnGrid
    ensures d.manual ==> d' == d
    ensures !d.manual ==> !d'.manual && (d'.state ==> OnTimeOk(d', env.at.mono))
  {
    hide WantRemainder;
  }

  lemma SpecificOnTime(d: Device, d': Device, env: Env)
    requires d.manual ==> d' == d
    requires !d.manual ==> !d'.manual && (d'.state ==> OnTimeOk(d', env.at.mono))
    ensures var d'' := Specific(d', env.at);
            d''.state && !d''.manual && !OnTimeOk(d'', env.at.mono) <==>
              d.state && d.manual && ManualExpires(d, env.at) && !OnTimeOk(d, env.at.mono)
  {
  }

  lemma PairInventory(d: Device, battery: Device)
    requires d.kind != BatteryDevice && d.id != BATTERY_ID && !d.config.batteryEnabled
    requires battery.kind == BatteryDevice && battery.id == BATTERY_ID && !battery.config.batteryEnabled
    ensures Inventory([d, battery])
  {
    assert [d, battery][1..] == [battery];
    assert Find([d, battery], BATTERY_ID) == 1;
  }
}
