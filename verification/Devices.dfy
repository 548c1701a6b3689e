/** Switched devices: src/device/electrical/OnOff.cpp, TimeRange.cpp, include/device/electrical/Controller.hpp and the
    consumption of src/device/electrical/Battery.cpp. The class hierarchy is one class with a kind. */
module Devices {
  import opened Series
  import opened Timespans
  import opened BatteryLatch

  const BATTERY_ID := -4

  datatype DeviceKind = TimeRangeDevice | ControllerDevice | BatteryDevice

  /** minOn is what GetMinOn answers: for the battery, its cooldown. */
  datatype DeviceConfig = DeviceConfig(
    enabled: bool, hasControl: bool, metered: bool, expected: real, batteryEnabled: bool, controllerId: int,
    minOn: nat, maxOn: nat, minOff: nat, minOnTime: nat, minOnForLast: nat, retention: nat)

  /** The monotonic and the wall clock. */
  datatype Moment = Moment(mono: int, wall: int)

  datatype Device = Device(
    id: int, kind: DeviceKind, config: DeviceConfig, offline: bool, manual: bool, manualTimeout: int, state: bool,
    lastOn: int, lastOff: int, lastManual: int, power: real, onHistory: seq<Span>)

  // ---------------------------------------------------------------- switching

  /** Clock in or out when the state changes. */
  function Clocked(d: Device, state: bool, at: Moment): Device
  {
    if state == d.state then d
    else if state then d.(onHistory := ClockedIn(d.onHistory, at.wall), lastOn := at.mono)
    else d.(onHistory := ClockedOut(d.onHistory, at.wall, at.wall, d.config.retention), lastOff := at.mono)
  }

  /** SetState, or nothing when there is no relay or it does not answer. */
  function Switched(d: Device, state: bool, answers: bool, at: Moment): Device
  {
    if d.config.hasControl && answers then Clocked(d, state, at).(state := state) else d
  }

  function SetByHand(d: Device, state: bool, timeout: int, answers: bool, at: Moment): Device
  {
    if d.config.hasControl && answers then
      Clocked(d, state, at).(state := state, manual := true, manualTimeout := timeout, lastManual := at.mono)
    else d
  }

  function SetToAuto(d: Device): Device
  {
    d.(manual := false, manualTimeout := 0)
  }

  /** The end of a timed manual period. */
  function ManualExpires(d: Device, at: Moment): bool
  {
    d.manualTimeout != 0 && at.mono - d.lastManual >= d.manualTimeout
  }

  function Specific(d: Device, at: Moment): Device
  {
    if ManualExpires(d, at) then SetToAuto(d) else d
  }

  /** A report of the relay: it changes the state without clocking in or out. */
  function Reported(d: Device, state: bool, byHand: bool): Device
  {
    d.(state := state, manual := d.manual || byHand)
  }

  /** IsOn of the battery: enabled and not on grid. */
  predicate BatteryIsOn(d: Device)
  {
    d.config.enabled && !d.state
  }

  function Power(d: Device): real
  {
    if !d.config.metered then -1.0
    else if d.kind == BatteryDevice && d.power != -1.0 && !BatteryIsOn(d) then 0.0
    else d.power
  }

  function Consumption(d: Device): real
  {
    if d.kind == BatteryDevice then
      if !d.state && Power(d) >= 0.0 then Power(d) else d.config.expected
    else if d.state && d.config.metered then Power(d)
    else d.config.expected
  }

  // ---------------------------------------------------------------- decisions

  /** Which of a device's time ranges are active now. */
  datatype Schedules = Schedules(force: bool, remainder: bool, offload: bool)

  /** None stands for the exception of a lookup beyond the retention. */
  function WantRemainder(d: Device, s: Schedules, at: Moment): Option<bool>
  {
    if !s.remainder then Some(false)
    else
      match TotalForLast(d.onHistory, d.config.minOnForLast, at.wall, d.config.retention)
      case None => None
      case Some(total) => Some(total < d.config.minOnTime)
  }

  function TimeRangeWanted(d: Device, s: Schedules, at: Moment): Option<WantedState>
  {
    if d.manual then Some(Unchanged)
    else if d.state && at.mono - d.lastOn < d.config.minOn then Some(Unchanged)
    else if d.state && d.config.maxOn > 0 && at.mono - d.lastOn > d.config.maxOn then Some(Off)
    else if !d.state && at.mono - d.lastOff < d.config.minOff then Some(Unchanged)
    else if s.force then Some(On)
    else
      match WantRemainder(d, s, at)
      case None => None
      case Some(remainder) => Some(if remainder then On else if s.offload then Offload else Off)
  }

  /** Inside its remainder range an automatic device that may be switched is wanted on exactly while its on-time of the
      last minOnForLast seconds, counted on everything ever clocked, is short of minOnTime. */
  lemma RemainderServesOnTime(d: Device, log: seq<Span>, s: Schedules, at: Moment)
    requires Ordered(d.onHistory, at.wall) && Logs(d.onHistory, log, at.wall, d.config.retention)
    requires d.config.minOnForLast <= d.config.retention
    requires !d.manual && !s.force && s.remainder
    requires if d.state then
               at.mono - d.lastOn >= d.config.minOn && (d.config.maxOn == 0 || at.mono - d.lastOn <= d.config.maxOn)
             else at.mono - d.lastOff >= d.config.minOff
    ensures TimeRangeWanted(d, s, at) == Some(On)
       <==> |OnSeconds(log, at.wall - d.config.minOnForLast, at.wall)| < d.config.minOnTime
  {
    TotalOverLog(d.onHistory, log, d.config.minOnForLast, at.wall, d.config.retention);
  }

  /** An automatic device that its minimum and maximum times leave free to switch. */
  predicate Free(d: Device, at: Moment)
  {
    && !d.manual
    && if d.state then
         at.mono - d.lastOn >= d.config.minOn && (d.config.maxOn == 0 || at.mono - d.lastOn <= d.config.maxOn)
       else at.mono - d.lastOff >= d.config.minOff
  }

  /** What a device free to switch is wanted to be: on in its force range, and in its remainder range while the
      on-time of the lookup, counted on everything ever clocked, is short; else offloaded in its offload range; else
      off. */
  lemma FreeDeviceWanted(d: Device, log: seq<Span>, s: Schedules, at: Moment)
    requires Free(d, at)
    requires Ordered(d.onHistory, at.wall) && Logs(d.onHistory, log, at.wall, d.config.retention)
    ensures s.force ==> TimeRangeWanted(d, s, at) == Some(On)
    ensures !s.force && s.remainder && d.config.minOnForLast > d.config.retention ==> TimeRangeWanted(d, s, at) == None
    ensures d.config.minOnForLast <= d.config.retention || !s.remainder ==>
      var short := s.remainder
        && |OnSeconds(log, at.wall - d.config.minOnForLast, at.wall)| < d.config.minOnTime;
      && (TimeRangeWanted(d, s, at) == Some(On) <==> s.force || short)
      && (TimeRangeWanted(d, s, at) == Some(Offload) <==> !s.force && !short && s.offload)
      && (TimeRangeWanted(d, s, at) == Some(Off) <==> !s.force && !short && !s.offload)
  {
    hide Ordered, Logs, OnSeconds, HistoryTotal;
    if s.remainder && d.config.minOnForLast <= d.config.retention {
      TotalOverLog(d.onHistory, log, d.config.minOnForLast, at.wall, d.config.retention);
    }
  }

  /** A device that is not free is left as it is, unless it has been on for too long. */
  lemma BoundDeviceWanted(d: Device, s: Schedules, at: Moment)
    requires !Free(d, at)
    ensures TimeRangeWanted(d, s, at) == Some(
      if !d.manual && d.state && at.mono - d.lastOn >= d.config.minOn
         && d.config.maxOn > 0 && at.mono - d.lastOn > d.config.maxOn then Off else Unchanged)
  {
  }

  class OnOff {
    const id: int
    const kind: DeviceKind
    var config: DeviceConfig
    var offline: bool
    var manual: bool
    var manualTimeout: int
    var state: bool
    var lastOn: int
    var lastOff: int
    var lastManual: int
    var power: real
    var onHistory: seq<Span>

    ghost function View(): Device
      reads this
    {
      Device(id, kind, config, offline, manual, manualTimeout, state, lastOn, lastOff, lastManual, power, onHistory)
    }

    constructor (id: int, kind: DeviceKind, config: DeviceConfig)
      ensures View() == Device(id, kind, config, false, false, 0, false, 0, 0, 0, 0.0, [])
    {
      this.id, this.kind, this.config := id, kind, config;
      offline, manual, manualTimeout, state := false, false, 0, false;
      lastOn, lastOff, lastManual, power, onHistory := 0, 0, 0, 0.0, [];
    }

    method Clock(newState: bool, at: Moment)
      modifies this
      ensures View() == Clocked(old(View()), newState, at)
    {
      if newState == state {
        return;
      }
      if newState {
        onHistory := ClockedIn(onHistory, at.wall);
      } else {
        onHistory := ClockedOut(onHistory, at.wall, at.wall, config.retention);
      }
      if newState {
        lastOn := at.mono;
      } else {
        lastOff := at.mono;
      }
    }

    /** answers tells whether the relay obeys; if it does not, an exception is thrown and thrown is set. */
    method SetState(newState: bool, answers: bool, at: Moment) returns (thrown: bool)
      modifies this
      ensures View() == Switched(old(View()), newState, answers, at)
      ensures thrown == (old(config).hasControl && !answers)
      ensures state == if old(config).hasControl && answers then newState else old(state)
      ensures manual == old(manual) && manualTimeout == old(manualTimeout) && lastManual == old(lastManual)
    {
      if !config.hasControl {
        return false;
      }
      if !answers {
        return true;
      }
      Clock(newState, at);
      state := newState;
      return false;
    }

    method SetManualState(newState: bool, timeout: int, answers: bool, at: Moment) returns (thrown: bool)
      modifies this
      ensures View() == SetByHand(old(View()), newState, timeout, answers, at)
      ensures thrown == (old(config).hasControl && !answers)
      ensures old(config).hasControl && answers ==>
        state == newState && manual && manualTimeout == timeout && lastManual == at.mono
      ensures !(old(config).hasControl && answers) ==> View() == old(View())
    {
      if !config.hasControl {
        return false;
      }
      if !answers {
        return true;
      }
      Clock(newState, at);
      manual := true;
      manualTimeout := timeout;
      lastManual := at.mono;
      state := newState;
      return false;
    }

    method SetAutoState()
      modifies this
      ensures View() == SetToAuto(old(View()))
      ensures !manual && manualTimeout == 0 && state == old(state) && lastOn == old(lastOn) && lastOff == old(lastOff)
    {
      manual := false;
      manualTimeout := 0;
    }

    method SwitchReported(newState: bool, byHand: bool)
      modifies this
      ensures View() == Reported(old(View()), newState, byHand)
      ensures state == newState && manual == (old(manual) || byHand)
      ensures lastOn == old(lastOn) && lastOff == old(lastOff) && onHistory == old(onHistory)
    {
      if byHand {
        manual := true;
      }
      state := newState;
    }

    method SpecificActions(at: Moment)
      modifies this
      ensures View() == Specific(old(View()), at)
      ensures var ends := old(manualTimeout) != 0 && at.mono - old(lastManual) >= old(manualTimeout);
              && manual == (old(manual) && !ends) && manualTimeout == (if ends then 0 else old(manualTimeout))
              && state == old(state)
    {
      if manualTimeout == 0 {
        return;
      }
      if at.mono - lastManual >= manualTimeout {
        SetAutoState();
      }
    }

    /** get_wanted_state of a time-range device; None if its history lookup throws. */
    method GetWantedState(s: Schedules, at: Moment) returns (w: Option<WantedState>)
      ensures w == TimeRangeWanted(View(), s, at)
    {
      hide TotalForLast;
      if manual {
        return Some(Unchanged);
      }
      if state && at.mono - lastOn < config.minOn {
        return Some(Unchanged);
      }
      if state && config.maxOn > 0 && at.mono - lastOn > config.maxOn {
        return Some(Off);
      }
      if !state && at.mono - lastOff < config.minOff {
        return Some(Unchanged);
      }
      if s.force {
        return Some(On);
      }
      if s.remainder {
        var total := TotalForLast(onHistory, config.minOnForLast, at.wall, config.retention);
        if total.None? {
          return None;
        }
        if total.value < config.minOnTime {
          return Some(On);
        }
      }
      if s.offload {
        return Some(Offload);
      }
      return Some(Off);
    }

    /** Unmetered reads -1. A battery that is disabled or on the grid reads 0, so that its meter does not count the
        power coming from the grid a second time. */
    method GetPower() returns (r: real)
      ensures r == Power(View())
      ensures !config.metered ==> r == -1.0
      ensures config.metered && kind == BatteryDevice && power != -1.0 && (!config.enabled || state) ==> r == 0.0
      ensures config.metered && (kind != BatteryDevice || power == -1.0 || (config.enabled && !state)) ==> r == power
    {
      var metered := if config.metered then power else -1.0;
      if kind == BatteryDevice {
        if metered == -1.0 {
          return -1.0;
        }
        if !(config.enabled && !state) {
          return 0.0;
        }
      }
      return metered;
    }

    /** A device that is on counts what its meter reads, and any other its configured consumption. For the battery it
        is the other way round: its meter counts while it is off the grid, and reads a usable value. */
    method GetExpectedConsumption() returns (r: real)
      ensures r == Consumption(View())
      ensures kind != BatteryDevice && state && config.metered ==> r == power
      ensures kind != BatteryDevice && !(state && config.metered) ==> r == config.expected
      ensures kind == BatteryDevice && state ==> r == config.expected
      ensures kind == BatteryDevice && !state && !config.metered ==> r == config.expected
      ensures kind == BatteryDevice && !state && config.metered && config.enabled ==>
        r == if power >= 0.0 then power else config.expected
      ensures kind == BatteryDevice && !state && config.metered && !config.enabled && power != -1.0 ==> r == 0.0
    {
      var p := GetPower();
      if kind == BatteryDevice {
        if !state && p >= 0.0 {
          return p;
        }
        return config.expected;
      }
      if state && config.metered {
        return p;
      }
      return config.expected;
    }
  }

  // ---------------------------------------------------------------- the inventory

  /** Index of the device with this id, or the length if there is none. */
  function Find(devices: seq<Device>, id: int): (i: nat)
    ensures i <= |devices| && (i < |devices| ==> devices[i].id == id)
    ensures forall j :: 0 <= j < i ==> devices[j].id != id
  {
    if devices == [] || devices[0].id == id then 0 else 1 + Find(devices[1..], id)
  }

  /** What the program ensures of its devices: there is one battery, ids are unique, and a device on a controlled
      circuit names an existing controller. */
  ghost predicate Inventory(devices: seq<Device>)
  {
    && (forall i, j :: 0 <= i < j < |devices| ==> devices[i].id != devices[j].id)
    && (forall i :: 0 <= i < |devices| ==> (devices[i].kind == BatteryDevice <==> devices[i].id == BATTERY_ID))
    && Find(devices, BATTERY_ID) < |devices|
    && (forall i :: 0 <= i < |devices| && devices[i].config.batteryEnabled && devices[i].config.controllerId != 0 ==>
          Find(devices, devices[i].config.controllerId) < |devices|
          && devices[Find(devices, devices[i].config.controllerId)].kind == ControllerDevice)
  }

  function BatteryDeviceOf(devices: seq<Device>): Device
    requires Inventory(devices)
  {
    devices[Find(devices, BATTERY_ID)]
  }

  function IsOnBattery(devices: seq<Device>, d: Device): bool
    requires Inventory(devices) && d in devices
  {
    if d.kind == ControllerDevice then !d.state
    else if !d.config.batteryEnabled || !BatteryIsOn(BatteryDeviceOf(devices)) then false
    else if d.config.controllerId == 0 then true
    else !devices[Find(devices, d.config.controllerId)].state
  }

  /** A controller is on the battery while it is off. Any other device is, if it is meant to, while the battery is in
      use off the grid, and its controller, if it has one, is off. */
  lemma OnBatteryIff(devices: seq<Device>, i: nat)
    requires Inventory(devices) && i < |devices|
    ensures devices[i].kind == ControllerDevice ==> (IsOnBattery(devices, devices[i]) <==> !devices[i].state)
    ensures devices[i].kind != ControllerDevice ==>
      (IsOnBattery(devices, devices[i]) <==>
        && devices[i].config.batteryEnabled
        && (exists b :: 0 <= b < |devices|
              && devices[b].kind == BatteryDevice && devices[b].config.enabled && !devices[b].state)
        && (devices[i].config.controllerId == 0
            || exists c :: 0 <= c < |devices| && devices[c].id == devices[i].config.controllerId && !devices[c].state))
  {
    var b := Find(devices, BATTERY_ID);
    assert devices[b].kind == BatteryDevice;
    if devices[i].config.batteryEnabled && devices[i].config.controllerId != 0 {
      var c := Find(devices, devices[i].config.controllerId);
      assert devices[c].id == devices[i].config.controllerId;
    }
  }

  /** Same devices, possibly in another state. */
  ghost predicate SameDevices(a: seq<Device>, b: seq<Device>)
  {
    && |a| == |b|
    && forall i :: 0 <= i < |a| ==> a[i].id == b[i].id && a[i].kind == b[i].kind && a[i].config == b[i].config
  }

  lemma {:induction false} FindSame(a: seq<Device>, b: seq<Device>, id: int)
    requires SameDevices(a, b)
    ensures Find(a, id) == Find(b, id)
  {
    if a != [] && a[0].id != id {
      FindSame(a[1..], b[1..], id);
    }
  }

  lemma InventorySame(a: seq<Device>, b: seq<Device>)
    requires SameDevices(a, b) && Inventory(a)
    ensures Inventory(b)
  {
    FindSame(a, b, BATTERY_ID);
    forall i | 0 <= i < |b| && b[i].config.batteryEnabled && b[i].config.controllerId != 0
      ensures Find(b, b[i].config.controllerId) < |b|
      ensures b[Find(b, b[i].config.controllerId)].kind == ControllerDevice
    {
      FindSame(a, b, b[i].config.controllerId);
      assert a[i].config == b[i].config;
    }
  }
}
