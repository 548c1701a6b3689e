/** The battery's BACKUP latch, its offload and charge hysteresis and its wanted state:
    src/device/electrical/Battery.cpp. */
module BatteryLatch {
  import opened Series

  datatype WantedState = On | Off | Offload | Unchanged

  datatype SocState = Discharging | Charging | Float | Backup

  datatype Policy = GridPolicy | BatteryPolicy | OffloadPolicy

  datatype Hysteresis = Hysteresis(enabled: bool, low: nat, high: nat)

  datatype BatteryConfig = BatteryConfig(
    policy: Policy, batteryLow: nat, batteryHigh: nat, minGridTime: nat,
    offload: Hysteresis, offloadMax: int, charge: Hysteresis)
  {
    /** What CheckConfig demands of the thresholds. */
    predicate Valid()
    {
      && batteryLow < batteryHigh <= 100
      && (offload.enabled ==> offload.low < offload.high)
      && (charge.enabled ==> charge.low < charge.high)
    }
  }

  /** A voltmeter that knows its state reports it; the others make the battery guess. */
  datatype ChargeReport = ReportsCharging | ReportsDischarging | ReportsOther | Unsupported

  datatype Reading = Reading(soc: real, report: ChargeReport, charging: bool, chargeActive: bool, now: int)

  datatype BatteryState = BatteryState(
    soc: real, socState: SocState, lastGridSwitch: int, offloadAllowed: bool, chargeRequired: bool)

  function Initial(now: int): BatteryState
  {
    BatteryState(-1.0, Float, now, false, false)
  }

  // ---------------------------------------------------------------- one voltmeter event

  predicate LeavesBackup(b: BatteryState, cfg: BatteryConfig, r: Reading)
  {
    && (b.socState == Backup || r.soc < cfg.batteryLow as real)
    && r.soc > cfg.batteryHigh as real && r.now - b.lastGridSwitch > cfg.minGridTime
  }

  function Guess(state: SocState, oldSoc: real, r: Reading): SocState
  {
    match r.report
    case ReportsCharging => Charging
    case ReportsDischarging => Discharging
    case ReportsOther => Float
    case Unsupported =>
      if state != Charging && r.charging then Charging
      else if state == Charging && !r.charging then Float
      else if r.soc < oldSoc then Discharging
      else state
  }

  function NextSocState(b: BatteryState, cfg: BatteryConfig, r: Reading): SocState
  {
    if LeavesBackup(b, cfg, r) then Guess(Float, b.soc, r)
    else if b.socState == Backup || r.soc < cfg.batteryLow as real then Backup
    else Guess(b.socState, b.soc, r)
  }

  function NextOffload(allowed: bool, h: Hysteresis, soc: real): bool
  {
    if !h.enabled then allowed
    else if soc < h.low as real then false
    else soc >= h.high as real || allowed
  }

  function NextCharge(required: bool, h: Hysteresis, active: bool, soc: real): bool
  {
    if !h.enabled then required
    else if !active then soc < h.low as real
    else soc < h.low as real || (required && soc < h.high as real)
  }

  function Sense(b: BatteryState, cfg: BatteryConfig, r: Reading): BatteryState
  {
    BatteryState(
      r.soc, NextSocState(b, cfg, r), if LeavesBackup(b, cfg, r) then r.now else b.lastGridSwitch,
      NextOffload(b.offloadAllowed, cfg.offload, r.soc),
      NextCharge(b.chargeRequired, cfg.charge, r.chargeActive, r.soc))
  }

  /** A changed option is reset when the configuration is replaced. */
  function Reconfigured(b: BatteryState, before: BatteryConfig, after: BatteryConfig): BatteryState
  {
    b.(offloadAllowed := b.offloadAllowed && before.offload.enabled == after.offload.enabled,
       chargeRequired := b.chargeRequired && before.charge.enabled == after.charge.enabled)
  }

  /** ON is grid mode, OFF is battery mode. */
  function BatteryWanted(b: BatteryState, cfg: BatteryConfig, hasControl: bool, manual: bool, gridOffline: bool,
                         chargeActive: bool, sinceOn: int, cooldown: nat): WantedState
  {
    if !hasControl || b.soc == -1.0 then Unchanged
    else if manual && b.socState != Backup then Unchanged
    else if gridOffline && b.socState != Backup then Off
    else if cfg.policy == GridPolicy || b.socState == Backup then On
    else if cfg.policy == BatteryPolicy then
      if cfg.charge.enabled && b.chargeRequired && chargeActive then On else Off
    else if sinceOn > cooldown then Offload
    else Unchanged
  }

  class Battery {
    var config: BatteryConfig
    var soc: real
    var socState: SocState
    var lastGridSwitch: int
    var offloadAllowed: bool
    var chargeRequired: bool

    ghost function State(): BatteryState
      reads this
    {
      BatteryState(soc, socState, lastGridSwitch, offloadAllowed, chargeRequired)
    }

    constructor (config: BatteryConfig, now: int)
      requires config.Valid()
      ensures State() == Initial(now) && this.config == config
      ensures soc == -1.0 && socState == Float && lastGridSwitch == now && !offloadAllowed && !chargeRequired
    {
      this.config := config;
      soc, socState, lastGridSwitch := -1.0, Float, now;
      offloadAllowed, chargeRequired := false, false;
    }

    method Prepare(config: BatteryConfig)
      modifies this
      ensures this.config == config && State() == Reconfigured(old(State()), old(this.config), config)
      ensures offloadAllowed == (old(offloadAllowed) && old(this.config).offload.enabled == config.offload.enabled)
      ensures chargeRequired == (old(chargeRequired) && old(this.config).charge.enabled == config.charge.enabled)
      ensures soc == old(soc) && socState == old(socState) && lastGridSwitch == old(lastGridSwitch)
    {
      if this.config.offload.enabled != config.offload.enabled {
        offloadAllowed := false;
      }
      if this.config.charge.enabled != config.charge.enabled {
        chargeRequired := false;
      }
      this.config := config;
    }

    /** The voltmeter part of sensor_changed; the monotonic clock is never behind the last switch. */
    method VoltmeterChanged(r: Reading)
      requires config.Valid() && lastGridSwitch <= r.now
      modifies this
      ensures State() == Sense(old(State()), config, r) && config == old(config) && soc == r.soc
    {
      var oldSoc := soc;
      soc := r.soc;
      UpdateSocState(oldSoc, r);
      UpdateOffload();
      UpdateCharge(r.chargeActive);
    }

    /** The relay, the manual mode and the clocks are those of the switched device that the battery also is. */
    method GetWantedState(hasControl: bool, manual: bool, gridOffline: bool, chargeActive: bool, sinceOn: int,
                          cooldown: nat)
      returns (w: WantedState)
      ensures w == BatteryWanted(State(), config, hasControl, manual, gridOffline, chargeActive, sinceOn, cooldown)
    {
      if !hasControl {
        return Unchanged;
      }
      if soc == -1.0 {
        return Unchanged;
      }
      if manual && socState != Backup {
        return Unchanged;
      }
      if gridOffline && socState != Backup {
        return Off;
      }
      if config.policy == GridPolicy {
        return On;
      }
      if socState == Backup {
        return On;
      }
      if config.policy == BatteryPolicy {
        if config.charge.enabled {
          if chargeRequired && chargeActive {
            return On;
          }
        }
        return Off;
      }
      if config.policy == OffloadPolicy && sinceOn > cooldown {
        return Offload;
      }
      return Unchanged;
    }

    method UpdateSocState(oldSoc: real, r: Reading)
      requires soc == r.soc && lastGridSwitch <= r.now
      modifies this`socState, this`lastGridSwitch
      ensures socState == NextSocState(old(State()).(soc := oldSoc), config, r)
      ensures lastGridSwitch == if LeavesBackup(old(State()), config, r) then r.now else old(lastGridSwitch)
    {
      if soc < config.batteryLow as real {
        socState := Backup;
      }
      if socState == Backup && soc > config.batteryHigh as real && r.now - lastGridSwitch > config.minGridTime {
        socState := Float;
        lastGridSwitch := r.now;
      }
      if socState != Backup {
        match r.report {
          case ReportsCharging => socState := Charging;
          case ReportsDischarging => socState := Discharging;
          case ReportsOther => socState := Float;
          case Unsupported =>
            if socState != Charging && r.charging {
              socState := Charging;
            } else if socState == Charging && !r.charging {
              socState := Float;
            } else if soc < oldSoc {
              socState := Discharging;
            }
        }
      }
    }

    method UpdateOffload()
      modifies this`offloadAllowed
      ensures offloadAllowed == NextOffload(old(offloadAllowed), config.offload, soc)
    {
      if config.offload.enabled {
        if soc >= config.offload.high as real {
          offloadAllowed := true;
        }
        if soc < config.offload.low as real {
          offloadAllowed := false;
        }
      }
    }

    method UpdateCharge(active: bool)
      modifies this`chargeRequired
      ensures chargeRequired == NextCharge(old(chargeRequired), config.charge, active, soc)
    {
      if config.charge.enabled {
        if !active {
          chargeRequired := soc < config.charge.low as real;
        } else {
          if soc >= config.charge.high as real {
            chargeRequired := false;
          }
          if soc < config.charge.low as real {
            chargeRequired := true;
          }
        }
      }
    }
  }

  // ---------------------------------------------------------------- runs of voltmeter events

  function Run(b: BatteryState, cfg: BatteryConfig, readings: seq<Reading>): BatteryState
  {
    if readings == [] then b
    else Sense(Run(b, cfg, readings[..|readings| - 1]), cfg, readings[|readings| - 1])
  }

  /** The state after the first n readings. */
  function After(b: BatteryState, cfg: BatteryConfig, readings: seq<Reading>, n: nat): BatteryState
    requires n <= |readings|
  {
    Run(b, cfg, readings[..n])
  }

  lemma {:induction false} AfterNext(b: BatteryState, cfg: BatteryConfig, readings: seq<Reading>, n: nat)
    requires n < |readings|
    ensures After(b, cfg, readings, n + 1) == Sense(After(b, cfg, readings, n), cfg, readings[n])
  {
    assert readings[..n + 1][..n] == readings[..n];
  }

  lemma AfterNone(b: BatteryState, cfg: BatteryConfig, readings: seq<Reading>)
    ensures After(b, cfg, readings, 0) == b
  {
  }

  ghost predicate Exits(b: BatteryState, cfg: BatteryConfig, readings: seq<Reading>, i: int)
  {
    && 0 <= i < |readings|
    && After(b, cfg, readings, i).socState == Backup && After(b, cfg, readings, i + 1).socState != Backup
  }

  /** Below battery_low the battery is in BACKUP after every event, and BACKUP ends at an event exactly when the charge
      exceeds battery_high and the last exit (or the construction) is more than min_grid_time ago. */
  lemma BackupEntryAndExit(b: BatteryState, cfg: BatteryConfig, readings: seq<Reading>, i: nat)
    requires cfg.Valid() && i < |readings|
    ensures readings[i].soc < cfg.batteryLow as real ==> After(b, cfg, readings, i + 1).socState == Backup
    ensures After(b, cfg, readings, i).socState == Backup ==>
      (Exits(b, cfg, readings, i) <==>
        && readings[i].soc > cfg.batteryHigh as real
        && readings[i].now - After(b, cfg, readings, i).lastGridSwitch > cfg.minGridTime)
    ensures After(b, cfg, readings, i).socState != Backup ==>
      (After(b, cfg, readings, i + 1).socState == Backup <==> readings[i].soc < cfg.batteryLow as real)
  {
    AfterNext(b, cfg, readings, i);
  }

  /** Any switch recorded is an exit at that instant, long enough after the one before. */
  lemma SwitchIsAnExit(b: BatteryState, cfg: BatteryConfig, r: Reading)
    requires cfg.Valid()
    ensures var b' := Sense(b, cfg, r);
            && (b.socState == Backup && b'.socState != Backup ==> b'.lastGridSwitch == r.now)
            && (b'.lastGridSwitch == b.lastGridSwitch
                || (b'.lastGridSwitch == r.now && r.now - b.lastGridSwitch > cfg.minGridTime))
            && (b.socState == Backup && b'.socState != Backup ==> r.now - b.lastGridSwitch > cfg.minGridTime)
  {
  }

  lemma {:induction false} LastSwitchIsAnExit(b: BatteryState, cfg: BatteryConfig, readings: seq<Reading>, n: nat)
    requires cfg.Valid() && n <= |readings|
    ensures var last := After(b, cfg, readings, n).lastGridSwitch;
            && (forall i :: 0 <= i < n && Exits(b, cfg, readings, i) ==>
                  readings[i].now <= last && readings[i].now - b.lastGridSwitch > cfg.minGridTime)
            && b.lastGridSwitch <= last
    decreases n
  {
    hide Sense, After;
    if n == 0 {
      AfterNone(b, cfg, readings);
    } else {
      LastSwitchIsAnExit(b, cfg, readings, n - 1);
      AfterNext(b, cfg, readings, n - 1);
      SwitchIsAnExit(After(b, cfg, readings, n - 1), cfg, readings[n - 1]);
    }
  }

  /** The first exit comes more than min_grid_time after the construction, and any two exits are more than min_grid_time
      apart. */
  lemma ExitsAreSpaced(b: BatteryState, cfg: BatteryConfig, readings: seq<Reading>, i: nat, j: nat)
    requires cfg.Valid() && Exits(b, cfg, readings, i) && Exits(b, cfg, readings, j)
    ensures readings[i].now - b.lastGridSwitch > cfg.minGridTime
    ensures i < j ==> readings[j].now - readings[i].now > cfg.minGridTime
  {
    hide Sense, Run, Exits;
    ExitRange(b, cfg, readings, i);
    ExitRange(b, cfg, readings, j);
    LastSwitchIsAnExit(b, cfg, readings, j);
    LastSwitchIsAnExit(b, cfg, readings, i + 1);
    BackupEntryAndExit(b, cfg, readings, j);
  }

  lemma ExitRange(b: BatteryState, cfg: BatteryConfig, readings: seq<Reading>, i: int)
    requires Exits(b, cfg, readings, i)
    ensures 0 <= i < |readings| && After(b, cfg, readings, i).socState == Backup
  {
  }

  /** Readings of a charge, between 0 and 100 percent. */
  ghost predicate Charges(readings: seq<Reading>)
  {
    forall i :: 0 <= i < |readings| ==> 0.0 <= readings[i].soc <= 100.0
  }

  /** A run of charges that enters BACKUP at its first event, at instant t, and leaves it at event j. */
  ghost predicate BackupSpell(b: BatteryState, cfg: BatteryConfig, readings: seq<Reading>, t: int, j: int)
  {
    && Charges(readings) && readings != [] && readings[0].now == t
    && b.socState != Backup && After(b, cfg, readings, 1).socState == Backup && Exits(b, cfg, readings, j)
  }

  /** With battery_high at 100, which the configuration accepts, no charge ever ends BACKUP. */
  lemma NoExitAtFull(b: BatteryState, cfg: BatteryConfig, readings: seq<Reading>, j: int)
    requires cfg.Valid() && cfg.batteryHigh == 100 && Charges(readings)
    ensures !Exits(b, cfg, readings, j)
  {
    if Exits(b, cfg, readings, j) {
      BackupEntryAndExit(b, cfg, readings, j);
    }
  }

  /** Down and up again: enters BACKUP at t and leaves it at end. */
  lemma DownAndUp(b: BatteryState, cfg: BatteryConfig, t: int, end: int) returns (readings: seq<Reading>)
    requires cfg.Valid() && 0 < cfg.batteryLow && cfg.batteryHigh < 100 && b.socState != Backup
    requires end - b.lastGridSwitch > cfg.minGridTime
    ensures |readings| == 2 && readings[1].now == end && BackupSpell(b, cfg, readings, t, 1)
  {
    readings := [Reading(0.0, Unsupported, false, false, t), Reading(100.0, Unsupported, false, false, end)];
    AfterNone(b, cfg, readings);
    AfterNext(b, cfg, readings, 0);
    AfterNext(b, cfg, readings, 1);
  }

  /** A BACKUP entered at t can end at exactly those instants that are more than min_grid_time after the last exit (or
      the construction), however long ago it was entered; with battery_high at 100 it cannot end at all. */
  lemma BackupEndsIff(b: BatteryState, cfg: BatteryConfig, t: int, end: int)
    requires cfg.Valid() && cfg.batteryLow > 0 && b.socState != Backup && b.lastGridSwitch <= t <= end
    ensures (exists readings: seq<Reading>, j: int :: BackupSpell(b, cfg, readings, t, j) && readings[j].now == end)
       <==> cfg.batteryHigh < 100 && end - b.lastGridSwitch > cfg.minGridTime
  {
    if readings: seq<Reading>, j: int :| BackupSpell(b, cfg, readings, t, j) && readings[j].now == end {
      ExitsAreSpaced(b, cfg, readings, j, j);
      if cfg.batteryHigh == 100 {
        NoExitAtFull(b, cfg, readings, j);
      }
    }
    if cfg.batteryHigh < 100 && end - b.lastGridSwitch > cfg.minGridTime {
      var readings := DownAndUp(b, cfg, t, end);
      assert BackupSpell(b, cfg, readings, t, 1) && readings[1].now == end;
    }
  }

  /** BACKUP can be left at all exactly when battery_high is below 100. */
  lemma BackupCanEndIff(b: BatteryState, cfg: BatteryConfig, t: int)
    requires cfg.Valid() && cfg.batteryLow > 0 && b.socState != Backup && b.lastGridSwitch <= t
    ensures (exists readings: seq<Reading>, j: int :: BackupSpell(b, cfg, readings, t, j)) <==> cfg.batteryHigh < 100
  {
    hide After, Exits;
    if readings: seq<Reading>, j: int :| BackupSpell(b, cfg, readings, t, j) {
      if cfg.batteryHigh == 100 {
        NoExitAtFull(b, cfg, readings, j);
      }
    }
    if cfg.batteryHigh < 100 {
      var readings := DownAndUp(b, cfg, t, Max(t, b.lastGridSwitch + cfg.minGridTime + 1));
      assert BackupSpell(b, cfg, readings, t, 1);
    }
  }

  /** BACKUP is sure to last more than min_grid_time from its entry at t exactly when it is entered at the very
      instant of the last exit (or the construction), or never ends. */
  lemma BackupLastsIff(b: BatteryState, cfg: BatteryConfig, t: int)
    requires cfg.Valid() && cfg.batteryLow > 0 && b.socState != Backup && b.lastGridSwitch <= t
    ensures (forall readings: seq<Reading>, j: int ::
               BackupSpell(b, cfg, readings, t, j) ==> readings[j].now - t > cfg.minGridTime)
       <==> t <= b.lastGridSwitch || cfg.batteryHigh == 100
  {
    hide After;
    BackupEndsIff(b, cfg, t, Max(t, b.lastGridSwitch + cfg.minGridTime + 1));
    BackupCanEndIff(b, cfg, t);
    if t <= b.lastGridSwitch {
      forall readings: seq<Reading>, j: int | BackupSpell(b, cfg, readings, t, j)
        ensures readings[j].now - t > cfg.minGridTime
      {
        ExitsAreSpaced(b, cfg, readings, j, j);
      }
    }
  }

  /** The spacing of exits does not make BACKUP last: wherever BACKUP can be entered and left, there is a run of
      charges that enters it at one event and leaves it one second later. */
  lemma BackupMayBeBrief(cfg: BatteryConfig) returns (readings: seq<Reading>)
    requires cfg.Valid() && 0 < cfg.batteryLow && cfg.batteryHigh < 100
    ensures |readings| == 2 && readings[1].now == readings[0].now + 1
    ensures BackupSpell(Initial(0), cfg, readings, readings[0].now, 1)
  {
    readings := DownAndUp(Initial(0), cfg, cfg.minGridTime + 1, cfg.minGridTime + 2);
  }

  /** Reading i reached the high threshold and none since fell below the low one. */
  ghost predicate AllowedSince(h: Hysteresis, readings: seq<Reading>, i: int)
  {
    && 0 <= i < |readings| && readings[i].soc >= h.high as real
    && forall j :: i < j < |readings| ==> readings[j].soc >= h.low as real
  }

  /** Offload is allowed after a run exactly when some reading reached the high threshold and none since fell below the
      low one. */
  lemma {:induction false} OffloadHysteresis(b: BatteryState, cfg: BatteryConfig, readings: seq<Reading>)
    requires cfg.Valid() && cfg.offload.enabled && !b.offloadAllowed
    ensures Run(b, cfg, readings).offloadAllowed <==> exists i :: AllowedSince(cfg.offload, readings, i)
  {
    if readings != [] {
      var n := |readings| - 1;
      OffloadHysteresis(b, cfg, readings[..n]);
      assert Run(b, cfg, readings).offloadAllowed
          == NextOffload(Run(b, cfg, readings[..n]).offloadAllowed, cfg.offload, readings[n].soc);
      hide Run;
      AllowedSinceNext(cfg.offload, readings);
    }
  }

  lemma AllowedSinceNext(h: Hysteresis, readings: seq<Reading>)
    requires readings != [] && h.low < h.high
    ensures var n := |readings| - 1;
            (exists i :: AllowedSince(h, readings, i)) <==>
              readings[n].soc >= h.high as real
              || (readings[n].soc >= h.low as real && exists i :: AllowedSince(h, readings[..n], i))
  {
    var n := |readings| - 1;
    if i :| AllowedSince(h, readings, i) {
      assert i < n ==> AllowedSince(h, readings[..n], i);
    }
    if i :| AllowedSince(h, readings[..n], i) {
      assert readings[n].soc >= h.low as real ==> AllowedSince(h, readings, i);
    }
    if readings[n].soc >= h.high as real {
      assert AllowedSince(h, readings, n);
    }
  }

  /** The battery still wants charging at this reading: below the high threshold inside a charging time range, below the
      low one outside. */
  predicate StillCharging(h: Hysteresis, r: Reading)
  {
    r.soc < (if r.chargeActive then h.high else h.low) as real
  }

  ghost predicate RequiredSince(h: Hysteresis, readings: seq<Reading>, i: int)
  {
    && 0 <= i < |readings| && readings[i].soc < h.low as real
    && forall j :: i < j < |readings| ==> StillCharging(h, readings[j])
  }

  /** Charging is required after a run exactly when some reading was below the low threshold and the battery still
      wanted charging at every reading since. */
  lemma {:induction false} ChargeHysteresis(b: BatteryState, cfg: BatteryConfig, readings: seq<Reading>)
    requires cfg.Valid() && cfg.charge.enabled && !b.chargeRequired
    ensures Run(b, cfg, readings).chargeRequired <==> exists i :: RequiredSince(cfg.charge, readings, i)
  {
    if readings != [] {
      var n := |readings| - 1;
      ChargeHysteresis(b, cfg, readings[..n]);
      RequiredSinceNext(cfg.charge, readings);
    }
  }

  lemma RequiredSinceNext(h: Hysteresis, readings: seq<Reading>)
    requires readings != [] && h.low < h.high
    ensures var n := |readings| - 1;
            (exists i :: RequiredSince(h, readings, i)) <==>
              readings[n].soc < h.low as real
              || (StillCharging(h, readings[n]) && exists i :: RequiredSince(h, readings[..n], i))
  {
    var n := |readings| - 1;
    if i :| RequiredSince(h, readings, i) {
      assert i < n ==> RequiredSince(h, readings[..n], i);
    }
    if i :| RequiredSince(h, readings[..n], i) {
      assert StillCharging(h, readings[n]) ==> RequiredSince(h, readings, i);
    }
    if readings[n].soc < h.low as real {
      assert RequiredSince(h, readings, n);
    }
  }

  // ---------------------------------------------------------------- hysteresis costs movement

  /** How far the charge moved over a run. */
  function Movement(readings: seq<Reading>): real
  {
    if |readings| < 2 then 0.0
    else
      var n := |readings| - 1;
      Movement(readings[..n]) + Abs(readings[n].soc - readings[n - 1].soc)
  }

  /** How often the offload permission changed over a run. */
  function Toggles(b: BatteryState, cfg: BatteryConfig, readings: seq<Reading>): nat
  {
    if readings == [] then 0
    else
      var init := readings[..|readings| - 1];
      Toggles(b, cfg, init) +
        if Run(b, cfg, readings).offloadAllowed != Run(b, cfg, init).offloadAllowed then 1 else 0
  }

  lemma NothingToggles(b: BatteryState, cfg: BatteryConfig)
    ensures Toggles(b, cfg, []) == 0
  {
  }

  /** k times width. */
  function Times(k: int, width: real): real
  {
    if k <= 0 then 0.0 else Times(k - 1, width) + width
  }

  lemma {:induction false} TimesIsProduct(k: nat, width: real)
    ensures Times(k, width) == k as real * width
  {
    if k > 0 {
      TimesIsProduct(k - 1, width);
      assert k as real * width == (k - 1) as real * width + width;
    }
  }

  /** k permission changes move the charge by at least k - 1 times the width of the hysteresis. */
  lemma HysteresisCostsMovement(b: BatteryState, cfg: BatteryConfig, readings: seq<Reading>)
    requires cfg.Valid() && cfg.offload.enabled && !b.offloadAllowed
    requires Toggles(b, cfg, readings) > 0
    ensures Movement(readings) >= (Toggles(b, cfg, readings) - 1) as real * (cfg.offload.high - cfg.offload.low) as real
  {
    hide Movement, Times, Run, AtLeast, Toggles;
    NothingToggles(b, cfg);
    MovementSinceToggle(b, cfg, readings);
    AtLeastTimes(Movement(readings), Toggles(b, cfg, readings), Run(b, cfg, readings).offloadAllowed,
                 readings[|readings| - 1].soc, cfg.offload.low as real, cfg.offload.high as real);
    TimesIsProduct(Toggles(b, cfg, readings) - 1, (cfg.offload.high - cfg.offload.low) as real);
  }

  /** The movement m that k changes, the last to allowed, need when the charge is now s. */
  predicate AtLeast(m: real, k: nat, allowed: bool, s: real, low: real, high: real)
  {
    && (k == 0 ==> !allowed) && m >= 0.0
    && (k > 0 ==> m >= Times(k - 1, high - low) + (if allowed then MaxReal(high - s, 0.0) else MaxReal(s - low, 0.0)))
  }

  lemma AtLeastTimes(m: real, k: nat, allowed: bool, s: real, low: real, high: real)
    requires AtLeast(m, k, allowed, s, low, high) && k > 0
    ensures m >= Times(k - 1, high - low)
  {
  }

  /** One more reading, at s' after s. */
  lemma AtLeastNext(m: real, k: nat, allowed: bool, s: real, s': real, h: Hysteresis)
    requires h.enabled && h.low < h.high && AtLeast(m, k, allowed, s, h.low as real, h.high as real)
    ensures var allowed' := NextOffload(allowed, h, s');
            var k' := if allowed' != allowed then k + 1 else k;
            AtLeast(m + Abs(s' - s), k', allowed', s', h.low as real, h.high as real)
  {
  }

  lemma {:induction false} MovementSinceToggle(b: BatteryState, cfg: BatteryConfig, readings: seq<Reading>)
    requires cfg.Valid() && cfg.offload.enabled && !b.offloadAllowed && readings != []
    ensures AtLeast(Movement(readings), Toggles(b, cfg, readings), Run(b, cfg, readings).offloadAllowed,
                    readings[|readings| - 1].soc, cfg.offload.low as real, cfg.offload.high as real)
  {
    var n := |readings| - 1;
    if n == 0 {
      assert readings[..0] == [];
    } else {
      MovementSinceToggle(b, cfg, readings[..n]);
      AtLeastNext(Movement(readings[..n]), Toggles(b, cfg, readings[..n]), Run(b, cfg, readings[..n]).offloadAllowed,
                  readings[n - 1].soc, readings[n].soc, cfg.offload);
    }
  }

  // ---------------------------------------------------------------- wanted state

  /** Event j can end BACKUP: the charge exceeds battery_high, long enough after the last exit. */
  ghost predicate CanEndBackup(b: BatteryState, cfg: BatteryConfig, readings: seq<Reading>, j: int)
  {
    && 0 <= j < |readings| && readings[j].soc > cfg.batteryHigh as real
    && readings[j].now - After(b, cfg, readings, j).lastGridSwitch > cfg.minGridTime
  }

  /** Reading i was below battery_low and no event since could end BACKUP. */
  ghost predicate BackupSince(b: BatteryState, cfg: BatteryConfig, readings: seq<Reading>, i: int)
  {
    && 0 <= i < |readings| && readings[i].soc < cfg.batteryLow as real
    && forall j :: i < j < |readings| ==> !CanEndBackup(b, cfg, readings, j)
  }

  /** The battery is in BACKUP after a run exactly when some reading was below battery_low and no event since could end
      BACKUP. */
  lemma {:induction false} BackupIff(b: BatteryState, cfg: BatteryConfig, readings: seq<Reading>)
    requires cfg.Valid() && b.socState != Backup
    ensures Run(b, cfg, readings).socState == Backup <==> exists i :: BackupSince(b, cfg, readings, i)
  {
    if readings != [] {
      var n := |readings| - 1;
      BackupIff(b, cfg, readings[..n]);
      NextBackup(Run(b, cfg, readings[..n]), cfg, readings[n]);
      assert Run(b, cfg, readings) == Sense(Run(b, cfg, readings[..n]), cfg, readings[n]);
      hide Run, Sense;
      BackupSinceNext(b, cfg, readings);
    }
  }

  lemma NextBackup(b: BatteryState, cfg: BatteryConfig, r: Reading)
    requires cfg.Valid()
    ensures Sense(b, cfg, r).socState == Backup <==>
            || r.soc < cfg.batteryLow as real
            || (b.socState == Backup
                && !(r.soc > cfg.batteryHigh as real && r.now - b.lastGridSwitch > cfg.minGridTime))
  {
  }

  lemma BackupSinceNext(b: BatteryState, cfg: BatteryConfig, readings: seq<Reading>)
    requires readings != [] && cfg.Valid()
    ensures var n := |readings| - 1;
            (exists i :: BackupSince(b, cfg, readings, i)) <==>
              || readings[n].soc < cfg.batteryLow as real
              || (!CanEndBackup(b, cfg, readings, n) && exists i :: BackupSince(b, cfg, readings[..n], i))
  {
    hide Run;
    var n := |readings| - 1;
    forall j | 0 <= j < n
      ensures CanEndBackup(b, cfg, readings[..n], j) <==> CanEndBackup(b, cfg, readings, j)
    {
      assert readings[..n][..j] == readings[..j];
    }
    hide CanEndBackup;
    if i :| BackupSince(b, cfg, readings, i) {
      assert i < n ==> BackupSince(b, cfg, readings[..n], i);
    }
    if i :| BackupSince(b, cfg, readings[..n], i) {
      assert !CanEndBackup(b, cfg, readings, n) ==> BackupSince(b, cfg, readings, i);
    }
    if readings[n].soc < cfg.batteryLow as real {
      assert BackupSince(b, cfg, readings, n);
    }
  }

  /** What the battery asks for after a run, for every policy. Without a relay or a known charge it asks for nothing.
      In BACKUP it asks for the grid, always. Otherwise it asks for nothing when manual, and for the battery when the
      grid is offline; and else by its policy. */
  lemma WantedOverRuns(b: BatteryState, cfg: BatteryConfig, readings: seq<Reading>, hasControl: bool, manual: bool,
                       gridOffline: bool, chargeActive: bool, sinceOn: int, cooldown: nat)
    requires cfg.Valid() && b.socState != Backup
    ensures var s := Run(b, cfg, readings);
            var w := BatteryWanted(s, cfg, hasControl, manual, gridOffline, chargeActive, sinceOn, cooldown);
            var known, backup := hasControl && s.soc != -1.0, exists i :: BackupSince(b, cfg, readings, i);
            && (!known ==> w == Unchanged)
            && (known && backup ==> w == On)
            && (known && !backup && manual ==> w == Unchanged)
            && (known && !backup && !manual && gridOffline ==> w == Off)
            && (known && !backup && !manual && !gridOffline ==>
                 match cfg.policy
                 case GridPolicy => w == On
                 case BatteryPolicy => w == if cfg.charge.enabled && s.chargeRequired && chargeActive then On else Off
                 case OffloadPolicy => w == if sinceOn > cooldown then Offload else Unchanged)
  {
    hide Run, BackupSince;
    BackupIff(b, cfg, readings);
  }

  /** Outside BACKUP the state is what the voltmeter reports, if it does. Otherwise the battery is charging if it was
      seen to start, unless its charge falls; and discharging since its charge fell, until it is seen to charge. An
      exit of BACKUP starts from FLOAT. */
  lemma StateOutsideBackup(b: BatteryState, cfg: BatteryConfig, r: Reading)
    requires cfg.Valid() && Sense(b, cfg, r).socState != Backup
    ensures var s, before := Sense(b, cfg, r).socState, if b.socState == Backup then Float else b.socState;
            && (r.report == ReportsCharging ==> s == Charging)
            && (r.report == ReportsDischarging ==> s == Discharging)
            && (r.report == ReportsOther ==> s == Float)
            && (r.report == Unsupported ==>
                 && (s == Charging <==> r.charging && (before != Charging || r.soc >= b.soc))
                 && (s == Discharging <==>
                      || (r.charging && before == Charging && r.soc < b.soc)
                      || (!r.charging && before != Charging && (r.soc < b.soc || before == Discharging))))
  {
  }

  /** A hysteresis that is not enabled keeps its latch over every run. */
  lemma {:induction false} DisabledKeeps(b: BatteryState, cfg: BatteryConfig, readings: seq<Reading>)
    ensures !cfg.offload.enabled ==> Run(b, cfg, readings).offloadAllowed == b.offloadAllowed
    ensures !cfg.charge.enabled ==> Run(b, cfg, readings).chargeRequired == b.chargeRequired
  {
    if readings != [] {
      DisabledKeeps(b, cfg, readings[..|readings| - 1]);
    }
  }

  /** The battery policy over a run of voltmeter events: an automatic battery on a live grid asks for the grid exactly
      in BACKUP, or inside a charging time range when it fell below the low charge threshold and still wants charging;
      and otherwise for the battery. */
  lemma BatteryPolicyOverRuns(b: BatteryState, cfg: BatteryConfig, readings: seq<Reading>, chargeActive: bool,
                              sinceOn: int, cooldown: nat)
    requires cfg.Valid() && cfg.policy == BatteryPolicy && cfg.charge.enabled && !b.chargeRequired
    requires Run(b, cfg, readings).soc != -1.0
    ensures var wanted := BatteryWanted(Run(b, cfg, readings), cfg, true, false, false, chargeActive, sinceOn,
                                      cooldown);
            && (wanted == On <==>
                  || Run(b, cfg, readings).socState == Backup
                  || (chargeActive && exists i :: RequiredSince(cfg.charge, readings, i)))
            && (wanted != On ==> wanted == Off)
  {
    hide Run, RequiredSince;
    ChargeHysteresis(b, cfg, readings);
  }
}
