# SolarControl: the controller, modelled and proved

SolarControl switches electrical devices so that they run on surplus solar power. Once a second it measures the power that
could be offloaded, keeps statistics of the last minutes, and decides for every device whether it must be on, must be off,
stays as it is, or may run on surplus. This project models that loop and the bookkeeping around it in Dafny, and proves what
each part promises and what the parts promise together:

- **Power statistics** (`MovingAverage.dfy`, `HigherFrequency.dfy`, `Stats.dfy`). The two-buffer moving average and the
  incremental "how often was the power at least r" index are classes that update their buffers in place; they are proved
  equal to a recomputation over the stream of samples.
- **Switched devices** (`Devices.dfy`, `Timespans.dfy`, `OnTime.dfy`). Minimum and maximum on-times, the manual mode with its
  timeout, and the on-time history, whose purged spans and day-by-day summation are proved invisible: over every run it
  counts the seconds for which it recorded the device as on, which are those it really was on as long as relays report the
  states they were commanded.
- **The battery** (`BatteryLatch.dfy`, `Voltmeter.dfy`). The BACKUP latch, both hystereses, the wanted state, and the
  piecewise-linear charge estimation with the validator of its table.
- **The scheduler** (`Algos.dfy`, `AlgoRuns.dfy`, `ForcedOrder.dfy`, `Manager.dfy`, `ManagerRuns.dfy`,
  `TickEffects.dfy`, `Ticks.dfy`).
  The forced pass and the two greedy offload passes, the cooldown between them, one tick, and whole runs of ticks mixed with manual
  commands, relay reports and measurements.
- **Energy accounting** (`History.dfy`, `Counter.dfy`, `Meters.dfy`). Meter deltas, the pending energy, today's cached
  counter, the two resolutions of history, the store, and the solar share.

Objects whose methods update their fields are classes; their methods are proved against functions of plain values, and the
lemmas are about those functions. Classes with a `ghost` field named `stream`, `log`, `added`, `reports` or `received`
remember everything they were ever given; `Valid()` ties the real fields to it, so that a method that skips an update or
updates the wrong field does not meet its contract. Doubles are `real`, instants are `int` seconds, the local time zone is a
fixed offset, the database table is a `map`, and the answer of a relay, the clock and the activity of a time range are
parameters. An exception is an `Option` or a flag in the result. `hide` statements only keep definitions away from the
solver where they are not needed.

## What the proofs found

- A prediction above the largest bucket answers for the largest bucket and so overstates the share
  (`HigherFrequencies.NeverOverstatesIffInRange`). The offload guarantee holds within the buckets, and for any need above
  them some stream selects the device without the power (`Algos.GuaranteeEndsAtLastBucket`).
- BACKUP has no minimum duration of its own: `min_grid_time` separates exits of BACKUP from each other and from the
  construction. For charges between 0 and 100 percent, a BACKUP can end at exactly the instants more than `min_grid_time`
  after the last exit, whenever it was entered, so it is sure to last that long only when entered at the very instant of that
  exit (`BatteryLatch.BackupEndsIff`, `BatteryLatch.BackupLastsIff`). The comment in src/device/electrical/Battery.cpp:319
  ("last switch was not too recent") speaks of the last exit, not of the entry.
- With `battery_high` at 100, which the configuration accepts, BACKUP can never be left, because the charge has to exceed it
  (`BatteryLatch.BackupCanEndIff`, `BatteryLatch.NoExitAtFull`).
- A relay's report of a state it was not commanded is taken over without clocking. If it went off by itself, the time it is
  off counts as on-time; if it went on, the time is lost. Recorded and real on-time differ in exactly the seconds in which
  history and state disagree, and the next switch makes them agree again (`OnTimes.DifferIffDisagreed`,
  `OnTimes.RecordsFollow`, `OnTimes.OffTimeIsCounted`).
- An automatic device is on for longer than `max_on` after a tick exactly when a manual period with the device on for too
  long ended in that very tick: the decision of a tick comes before the end of the manual period
  (`ManagerRuns.MaxOnOverRuns`, `ManagerRuns.MaxOnMissed`).
- Today's cached counter compares only the day of the year. It is wrong exactly while today has the day of the year of the
  last addition and something was added in another year since that day of the year came up (`Counters.ReadsTodayIff`); it
  then reads too much, and recovers on the next other day of the year (`Counters.RecoversOnAnotherDay`). The histories are
  never affected.
- A meter whose first reported total is zero loses everything up to its first positive total
  (`Meters.ConservedIffFirstPositive`, `Meters.LoggedPlusPending`).
- The split of forced power into grid and battery can depend on the address order of the devices
  (`Algos.SplitDependsOnOrder`). It does not, exactly when every device counts the same whatever of the battery and of its
  controller had its turn before (`ForcedOrders.SplitOrderFreeIff`). A dependence does no harm, because the offload passes
  only use the split in ticks in which the forced pass switched nothing (`Algos.QuietForcedPass`).
- One device whose remainder lookup is longer than the retention makes every tick throw while its remainder range is active
  and it is free to switch, and then no device is handled at all, the battery in BACKUP included (`Managers.AbortsIff`,
  `ManagerRuns.BackupProtectsBattery`).
- `GetTotalForLast` of the energy history is exact up to the retention and wrong for some history beyond
  (`Histories.BeyondRetentionMisses`).

## Model

| member | source | states |
|---|---|---|
| MovingAverages.FeedKeeps | include/stat/MovingAverage.hpp:55-81 | for positive weights both buffers together always hold a suffix of everything added, the cached sums and sizes are those of what is held, it fits the window or is a single old sample, and taking the next older sample back would exceed the window |
| MovingAverages.UnitWindowIsPlainMean | include/stat/MovingAverage.hpp:55-89 | with unit weights the average is the plain mean of the last max(window, 1) samples, whatever buffer swaps and trimming did |
| MovingAverages.AverageWithinRetained | include/stat/MovingAverage.hpp:83-89 | over positive weights an average exists exactly once something was added, and lies between the smallest and the largest held value |
| MovingAverages.TrimDropsPrefix | include/stat/MovingAverage.hpp:74-80 | trimming removes the oldest samples only, stops when the rest fits or one old sample is left, and never removes more than needed |
| MovingAverages.MovingAverage.Add | include/stat/MovingAverage.hpp:55-81 | appends the value with its weight, or with one for a weight of zero, and the object stays the one obtained by feeding everything added so far |
| MovingAverages.MovingAverage.Get | include/stat/MovingAverage.hpp:83-89 | the weighted mean of what is held, or the exception of an empty average |
| MovingAverages.MovingAverage.Size | include/stat/MovingAverage.hpp:91 | the number of samples held |
| HigherFrequencies.HigherFrequency.constructor | include/stat/CumulativeHigherFrequency.hpp:39-43 | the buckets are min, min + step, ... up to the last one not above max, all empty |
| HigherFrequencies.HigherFrequency.Add | include/stat/CumulativeHigherFrequency.hpp:45-61 | the window holds the last max(window, 1) samples and every bucket counts exactly the held samples that reach it |
| HigherFrequencies.HigherFrequency.GetFrequency | include/stat/CumulativeHigherFrequency.hpp:63-70 | the share of the last max(window, 1) samples that reach the bucket answering the query; no number without samples |
| HigherFrequencies.HigherFrequency.GetFrequencies | include/stat/CumulativeHigherFrequency.hpp:72-78 | one exact share per bucket |
| HigherFrequencies.BucketBrackets | include/stat/CumulativeHigherFrequency.hpp:63-70 | inside the range the answering bucket is at most one step above the query and not below it |
| HigherFrequencies.FrequencySandwich | include/stat/CumulativeHigherFrequency.hpp:63-70 | inside the range the answer lies between the exact share at the query and the exact share one step above |
| HigherFrequencies.FrequencyAntitone | include/stat/CumulativeHigherFrequency.hpp:63-70 | asking for more power never gives a larger share |
| HigherFrequencies.NeverOverstatesIffInRange | include/stat/CumulativeHigherFrequency.hpp:63-70 | the answer never overstates the share of samples that reach the query, on any window, if and only if the query is not above the last bucket |
| Statistics.Stats.constructor | src/thread/Stats.cpp:53-68 | four indices over the same buckets 0, 100, ... up to the offload maximum, and an empty average |
| Statistics.Stats.Sample | src/thread/Stats.cpp:119-134 | after every round the three windows, the smoothed average and the production window are those of the whole streams sampled so far |
| Statistics.ObservedAverage | src/thread/Stats.cpp:132-134 | the average that devices are kept on by is the plain mean of the last max(smoothing, 1) samples |
| Statistics.Stats.GetDevicePrediction | src/thread/Stats.cpp:102-111 | the prediction of the tier chosen by the device's minimum on-time, with the export margin added |
| Statistics.PredictionIsShare | src/thread/Stats.cpp:212-228 | a prediction that reaches the precision, within the buckets, is a promise that at least that share of the tier's samples had the power |
| Statistics.ShortfallIsShare | src/thread/Stats.cpp:212-228 | a prediction below the precision means that one bucket step more was available less often than the precision |
| Statistics.Stats.GetWeatherType | src/thread/Stats.cpp:85-100 | constant exactly when at most one bucket separates the held production samples; leaving the loop at the first zero loses nothing |
| Timespans.NextStopSplitsAtMidnights | src/datetime/DateTimeRange.cpp:40-65 | the iterator moves forward, stays in the range, and stops at every midnight and at the end, nowhere else |
| Timespans.SumOfPieces | src/datetime/TimespanHistory.cpp:169-185 | summing the pieces of a range gives end minus start |
| Timespans.TotalIsOnSeconds | src/datetime/TimespanHistory.cpp:148-188 | the total over the spans is the number of seconds of the window in which the device was on |
| Timespans.PurgeIsInvisible | src/datetime/TimespanHistory.cpp:74-86 | within the retention the on-seconds are those of a history that never purged |
| Timespans.TotalOverLog | src/datetime/TimespanHistory.cpp:143-189 | up to the retention the total is at most the window and equals the on-seconds over everything ever clocked |
| Timespans.TimespanHistory.ClockIn | src/datetime/TimespanHistory.cpp:93-114 | opens a span unless one is open or the last ends later; the full log follows |
| Timespans.TimespanHistory.ClockOut | src/datetime/TimespanHistory.cpp:121-141 | closes the open span and purges, or does nothing; the full log follows, unpurged |
| Timespans.TimespanHistory.Purge | src/datetime/TimespanHistory.cpp:74-86 | drops exactly the spans that ended longer ago than the retention, computed in 32 bits |
| Timespans.TimespanHistory.GetTotalForLast | src/datetime/TimespanHistory.cpp:143-189 | throws exactly beyond the retention, otherwise returns the on-seconds of the window over everything ever clocked |
| Voltmeter.CheckConfig | src/sensor/voltmeter/VoltmeterSimple.cpp:51-83 | accepts exactly the tables that start at 0 percent, end at 100 and rise in both columns, and names the first fault otherwise |
| Voltmeter.LinearOnSegments | src/sensor/voltmeter/VoltmeterSimple.cpp:122-141 | on each closed segment of an accepted table the charge is the straight line between its rows |
| Voltmeter.ExactAtThresholds | src/sensor/voltmeter/VoltmeterSimple.cpp:122-141 | at each table voltage the charge is the percentage of that row |
| Voltmeter.StateOfChargeRange | src/sensor/voltmeter/VoltmeterSimple.cpp:122-141 | the charge stays in [0, 100], is 100 exactly from the last row on and 0 exactly up to the first |
| Voltmeter.StateOfChargeMonotone | src/sensor/voltmeter/VoltmeterSimple.cpp:111-142 | more voltage never means less charge, and strictly more between the end rows |
| Voltmeter.VoltmeterSimple.GetVoltage | src/sensor/voltmeter/VoltmeterSimple.cpp:102-109 | the smoothed voltage, or -1 before the first measurement |
| Voltmeter.VoltmeterSimple.GetSOC | src/sensor/voltmeter/VoltmeterSimple.cpp:111-142 | the charge that the table gives for the average voltage, less the charge delta while charging; for -1 in its place before the first measurement |
| Voltmeter.ChargingReadsLess | src/sensor/voltmeter/VoltmeterSimple.cpp:115-116 | a charging battery never reads a higher charge than the same voltage at rest, for a charge delta that is not negative |
| Voltmeter.VoltmeterSimple.Walk | src/sensor/voltmeter/VoltmeterSimple.cpp:118-141 | the walk over the table ends, never divides by zero, and finds the charge that the table defines |
| BatteryLatch.BackupEntryAndExit | src/device/electrical/Battery.cpp:312-346 | over all runs: below battery_low every event ends in BACKUP; BACKUP ends at an event if and only if the charge exceeds battery_high and the last exit is more than min_grid_time ago; it is entered only below battery_low |
| BatteryLatch.ExitsAreSpaced | src/device/electrical/Battery.cpp:317-321 | the first exit comes more than min_grid_time after the construction, and any two exits are more than min_grid_time apart |
| BatteryLatch.BackupMayBeBrief | src/device/electrical/Battery.cpp:312-321 | wherever BACKUP can be entered and left at all there is a run of charges that leaves it one second after entering it |
| BatteryLatch.BackupEndsIff | src/device/electrical/Battery.cpp:312-321 | for charges of 0 to 100 percent, a BACKUP entered at any instant can end at exactly those instants more than min_grid_time after the last exit or the construction, provided battery_high is below 100 |
| BatteryLatch.BackupLastsIff | src/device/electrical/Battery.cpp:312-321 | every continuation stays in BACKUP for more than min_grid_time if and only if BACKUP is entered at the very instant of the last exit or the construction, or battery_high is 100 |
| BatteryLatch.BackupCanEndIff | src/device/electrical/Battery.cpp:317 | BACKUP can be left at all if and only if battery_high is below 100 |
| BatteryLatch.NoExitAtFull | src/device/electrical/Battery.cpp:317 | with battery_high at 100 no run of charges ever leaves BACKUP |
| BatteryLatch.OffloadHysteresis | src/device/electrical/Battery.cpp:348-356 | offload is allowed after a run if and only if some event reached soc_high and none since fell below soc_low |
| BatteryLatch.HysteresisCostsMovement | src/device/electrical/Battery.cpp:348-356 | k changes of the permission need a total charge movement of at least (k - 1) times the width of the hysteresis |
| BatteryLatch.ChargeHysteresis | src/device/electrical/Battery.cpp:358-371 | charging is required after a run if and only if some event fell below soc_low and since then the charge stayed below the threshold in force, soc_high inside the time ranges and soc_low outside |
| BatteryLatch.BatteryPolicyOverRuns | src/device/electrical/Battery.cpp:377-418 | under the battery policy the grid is asked for exactly in BACKUP or while charging is due inside a time range, judged by the whole run; otherwise the battery |
| BatteryLatch.BackupIff | src/device/electrical/Battery.cpp:312-321 | after a run the battery is in BACKUP if and only if some reading was below battery_low and no event since could end BACKUP |
| BatteryLatch.WantedOverRuns | src/device/electrical/Battery.cpp:377-425 | what the battery asks for after any run, under every policy, manual or not, with the grid offline or not, and without a relay or a known charge |
| BatteryLatch.StateOutsideBackup | src/device/electrical/Battery.cpp:323-346 | the state outside BACKUP is what the voltmeter reports, or else follows the start of charging and the fall of the charge |
| BatteryLatch.DisabledKeeps | src/device/electrical/Battery.cpp:348-371 | a hysteresis that is not enabled keeps its latch over every run |
| BatteryLatch.Battery.VoltmeterChanged | src/device/electrical/Battery.cpp:292-371 | one event leads to the next state of the run |
| BatteryLatch.Battery.Prepare | src/device/electrical/Battery.cpp:231-242 | switching a hysteresis on or off in the configuration resets its latch, and only then |
| BatteryLatch.Battery.GetWantedState | src/device/electrical/Battery.cpp:377-425 | the wanted state of the guard chain: passive, unknown charge, manual, grid outage, policy, BACKUP, charging, cooldown |
| Devices.OnOff.SetState | src/device/electrical/OnOff.cpp:146-163 | silently nothing without a relay, nothing but an exception when the relay fails, otherwise clock and state |
| Devices.OnOff.SetManualState | src/device/electrical/OnOff.cpp:165-186 | the same, and the manual mode with its timeout and start |
| Devices.OnOff.GetWantedState | src/device/electrical/TimeRange.cpp:104-131 | the wanted state of the guard chain: manual, minimum on, maximum on, minimum off, forced, remainder, offload |
| Devices.OnOff.GetPower | src/device/electrical/Battery.cpp:437-449 | -1 unmetered, 0 for a metered battery that is disabled or on the grid, the measured power otherwise |
| Devices.OnOff.GetExpectedConsumption | src/device/electrical/Battery.cpp:427-435 | a metered device that is on counts its measured power, any other its configured one; the battery the other way round: on the grid its configured one, off the grid what its meter reads if usable |
| Devices.RemainderServesOnTime | src/device/electrical/TimeRange.cpp:98-131 | in its remainder range a device free to switch is wanted on if and only if the on-seconds of the lookup window, over any full log of its history, fall short of min_on_time |
| Devices.FreeDeviceWanted | src/device/electrical/TimeRange.cpp:124-130 | a device free to switch is wanted on if and only if its force range is active, or its remainder range and the on-time of the lookup is short; offloaded if and only if otherwise its offload range is active; off in all other cases |
| Devices.BoundDeviceWanted | src/device/electrical/TimeRange.cpp:111-122 | a device that is not free is left as it is, or wanted off if it has been on for too long |
| OnTimes.HistoryOverRuns | src/device/electrical/OnOff.cpp:124-236 | over every run with a wall clock that does not go back, whatever relays report, a device's purged history has a full log, which tells exactly the seconds the history recorded as on |
| OnTimes.RecordsFollow | src/device/electrical/OnOff.cpp:124-236 | a switch makes history and state agree, and anything else, a relay's report included, leaves the history as it was |
| OnTimes.DifferIffDisagreed | src/device/electrical/OnOff.cpp:227-236 | recorded and real on-time differ in exactly the seconds in which history and state disagreed |
| OnTimes.AgreeWhileReportsDo | src/device/electrical/OnOff.cpp:124-236 | they never disagree in a run whose relays report the states they were commanded |
| OnTimes.OffTimeIsCounted | src/device/electrical/OnOff.cpp:227-236 | the difference as a run: switched on by hand at 10, off by itself at 20, recorded as on at 50 |
| OnTimes.RemainderOverRuns | src/device/electrical/TimeRange.cpp:98-131 | over every run, in a tick, a device free to switch and in its remainder range is wanted on if and only if it was recorded as on for less than min_on_time of the last min_on_for_last seconds; these are the seconds it really was on if and only if history and state agreed during all of them |
| AlgoRuns.DeviceOnBattery | src/device/electrical/OnOff.cpp:204-222 | on the battery: enabled for it, battery in use, and the controller, if any, not on grid; a controller (include/device/electrical/Controller.hpp:37) looks at itself only |
| Devices.OnBatteryIff | src/device/electrical/OnOff.cpp:204-222 | exactly which devices count as on the battery, in terms of the states of the battery and of the controllers |
| Algos.ObeyIs | src/device/electrical/OnOff.cpp:146-163 | a command takes effect exactly when the device has a relay that answers, and changes nothing but state, clock and history |
| Algos.ForcedDevices | src/energy/AlgoForced.cpp:29-64 | every forced device ends as wanted unless it has no relay or its relay failed, all others are untouched, in whatever order the devices come |
| Algos.ForcedChanged | src/energy/AlgoForced.cpp:37-51 | a change is reported if and only if some forced device was not as wanted and its relay did not fail |
| Algos.ForcedPower | src/energy/AlgoForced.cpp:53-62 | the forced power is the consumption of the forced devices that end up on, and grid plus battery make the whole |
| Algos.PickSumByIndex | src/energy/AlgoForced.cpp:37-62 | the sum over the forced devices does not depend on their order |
| Algos.QuietForcedPass | src/energy/AlgoForced.cpp:29-64 | a pass that reports no change has switched nothing, and its grid power is that of the forced devices on and not on the battery |
| Algos.SplitDependsOnOrder | src/energy/AlgoForced.cpp:53-62 | while devices are switched, the split into grid and battery depends on the order: two devices for which it is 0 or 100 |
| ForcedOrders.SplitOrderFreeIff | src/energy/AlgoForced.cpp:37-62 | every order of the forced devices gives the same grid power if and only if each of them adds the same for every subset of the moves of the battery and of its controller |
| ForcedOrders.TurnAddsShare | src/energy/AlgoForced.cpp:37-62 | what one device adds to the grid power depends on the order only through whether the battery and its controller had their turn |
| ForcedOrders.SettledWhenSourcesStay | src/device/electrical/OnOff.cpp:204-222 | in particular the order does not matter for a device whose battery and controller the pass does not switch, whatever else it switches |
| Algos.DecisionsArePrefixStable | src/energy/AlgoOffload.cpp:64-90 | priority: devices of lower priority never change the decision for a device of higher priority |
| Algos.GridDecisionAt | src/energy/AlgoOffload.cpp:46-90 | each device is judged against the forced power and the power selected before it |
| Algos.KeptOnIffItFits | src/energy/AlgoOffload.cpp:51-55 | a device that is on is kept on if and only if the forced power and the power selected up to and including it stay below the average plus the import margin |
| Algos.KeptOnIffMeanAllows | src/energy/AlgoOffload.cpp:51-55 | end to end: the same with the mean of the last samples of the stream in place of the average |
| Algos.OffloadGuarantee | src/energy/AlgoOffload.cpp:46-90 | end to end: when a device that is off is selected and the power it needs is within the buckets, at least the share precision of its tier's last samples had that power |
| Algos.RejectionGuarantee | src/energy/AlgoOffload.cpp:46-90 | when a device that is off is rejected, the power it needs plus one bucket step was available less often than the precision |
| Algos.GuaranteeEndsAtLastBucket | src/energy/AlgoOffload.cpp:57-61 | the bound of the guarantee is exact: for any positive precision some stream selects a device that needs more than the last bucket although that power was never there |
| Algos.AppliedAt | src/energy/AlgoOffload.cpp:76-88 | the device of each turn ends as decided unless its relay is missing or failed |
| Algos.AppliedElsewhere | src/energy/AlgoOffload.cpp:70-89 | a device that is not in the pass is untouched |
| Algos.BatteryDecisionAt | src/energy/AlgoOffloadBattery.cpp:52-66 | a device is selected if and only if offload is allowed and it fits below the maximum at its turn |
| Algos.BatterySelectionAt | src/energy/AlgoOffloadBattery.cpp:33-66 | in the pass itself: selected if and only if offload is enabled and allowed, and battery power less what the devices of the pass draw, plus what was selected before, plus its own consumption, is below the maximum |
| Algos.OffloadCap | src/energy/AlgoOffloadBattery.cpp:33-82 | as soon as any device is selected, uncontrolled plus selected power is below the maximum |
| Algos.CappedTotal | src/energy/AlgoOffloadBattery.cpp:41-66 | that total is the measured battery power plus the consumption of devices newly selected less that of devices deselected |
| Algos.SelectionCap | src/energy/AlgoOffloadBattery.cpp:33-82 | both together for the whole pass, and nothing is selected when offload is disabled or forbidden |
| AlgoRuns.AlgoForced.Run | src/energy/AlgoForced.cpp:29-64 | the loop over the devices leaves the devices, the report and the three powers of the forced pass |
| AlgoRuns.AlgoOffload.Hysteresis | src/energy/AlgoOffload.cpp:46-62 | the decision for one device from the live statistics |
| AlgoRuns.AlgoOffload.Run | src/energy/AlgoOffload.cpp:64-90 | although it switches devices between decisions, the loop decides as on the devices at its start; offloaded power is the sum over the selected devices |
| AlgoRuns.AlgoOffloadBattery.ForcedPower | src/energy/AlgoOffloadBattery.cpp:40-46 | battery power less the consumption of the pass's devices that are on |
| AlgoRuns.AlgoOffloadBattery.Run | src/energy/AlgoOffloadBattery.cpp:33-82 | the same for the battery pass |
| Managers.OneCollectionEach | src/thread/DevicesManager.cpp:83-106 | an enabled online device is in exactly one of the three collections, any other in none |
| Managers.PickedByPriority | src/thread/DevicesManager.cpp:83-106 | the offload collections hold exactly the devices of their class, in order of priority |
| Managers.AbortsIff | src/thread/DevicesManager.cpp:83-139 | a tick is lost if and only if some device in use and free to switch is in its remainder range with a lookup longer than the retention; never, if all lookups are within it |
| Managers.AbortHappens | src/thread/DevicesManager.cpp:83-139 | such a tick: a lookup of 2 seconds with a retention of 1 |
| Managers.RoundHandles | src/thread/DevicesManager.cpp:83-124 | what a tick does to each device by its class: nothing, obey, or at most what an offload pass decides |
| Managers.UnchangedIsUntouched | src/thread/DevicesManager.cpp:95-96 | a device whose wanted state is UNCHANGED is switched by no pass |
| Managers.OffloadsOnlyWhenQuiet | src/thread/DevicesManager.cpp:113-124 | an offload pass runs only when no forced device changed and the cooldown has passed, also with the elapsed time cut to 32 bits |
| Managers.OffloadsIff | src/thread/DevicesManager.cpp:113-114 | the offload passes run if and only if no forced device changed and the elapsed seconds, cut to 32 bits, reach the cooldown |
| Managers.UnusedIsUntouched | src/thread/DevicesManager.cpp:87-91 | a disabled device is left alone altogether, an offline one but for the end of its manual period |
| Managers.TickTimely | src/thread/DevicesManager.cpp:83-134 | in one tick a time-range device is switched only when automatic, off only after min_on and on only after min_off, and its clocks follow exactly its switches |
| Managers.MaxOnIff | src/device/electrical/TimeRange.cpp:115-119 | a tick whose relay obeys leaves a device automatic and on for longer than max_on (and min_on) if and only if it was so in a manual period that ends in this very tick |
| ManagerRuns.MinTimeSafety | src/thread/DevicesManager.cpp:83-134 | over every interleaving of ticks, manual commands, resets, measurements and arbitrary relay reports: the manager switches no manual device, and switches off at least min_on after every earlier switch-on and on at least min_off after every earlier switch-off, by itself or by hand |
| ManagerRuns.ClocksCover | src/device/electrical/OnOff.cpp:124-236 | over every such run a device's clocks never fall behind any earlier switch, by the manager or by hand |
| ManagerRuns.LastOnIsLastSwitchOn | src/device/electrical/OnOff.cpp:124-236 | and the on-clock is never ahead of the instant the device last turned on, by whatever, and shows exactly that instant unless its relay turned on by itself |
| ManagerRuns.MaxOnOverRuns | src/thread/DevicesManager.cpp:83-134 | over every such run, after a tick whose relay obeys, a device automatic before it has not been on for longer than max_on (and min_on) since it last turned on, by whatever; unless it turned on by itself, an automatic device has if and only if its manual period ended in that tick |
| ManagerRuns.MaxOnMissed | src/device/electrical/OnOff.cpp:282-294 | the exception as a run: a heater with a maximum of 5 seconds, switched on by hand for 10 at instant 90, is automatic and on after the tick at 100 |
| ManagerRuns.CooldownOverRuns | src/thread/DevicesManager.cpp:113-126 | over every run an offload pass runs only in a tick in which no forced device changed, and at least the cooldown after every earlier tick that changed anything and after the start |
| TickEffects.RoundChangedIff | src/thread/DevicesManager.cpp:108-126 | a tick counts as a change if and only if some device in one of the three passes was not as it was told to be and its relay did not throw |
| TickEffects.SwitchIsChange | src/thread/DevicesManager.cpp:108-126 | whatever a tick switches is a change |
| TickEffects.CooldownAfterSwitch | src/thread/DevicesManager.cpp:113-126 | over every run an offload pass runs at least the cooldown after every earlier tick that left some device in another state |
| TickEffects.TickServesRanges | src/thread/DevicesManager.cpp:83-134 | after a tick a device free to switch is on if its force range is active, and off if none of its ranges is |
| TickEffects.TickServesPolicy | src/thread/DevicesManager.cpp:83-134 | after a tick the battery is on or off the grid as its policy, the manual mode and the state of the grid ask for |
| TickEffects.TickBatterySelection | src/energy/AlgoOffloadBattery.cpp:33-82 | in a tick, a device on the battery is told to be on if and only if offload is enabled and allowed and it fits below the maximum at its turn by priority |
| TickEffects.BatteryOffloadHappens | src/energy/AlgoOffloadBattery.cpp:33-82 | a run in which the charge reaches the high threshold and the next tick's battery pass turns a device on |
| ManagerRuns.BackupProtectsBattery | src/thread/DevicesManager.cpp:83-126 | in BACKUP a tick leaves a controlled battery on the grid if and only if no decision throws or it was there already, and if an offload pass runs at all, only controllers are in the battery pass |
| ManagerRuns.BackupOverRuns | src/device/electrical/Battery.cpp:312-321 | over every run, from a reading below battery_low until BACKUP is left, every completed tick with the battery under control ends with it on the grid |
| ManagerRuns.QuietRound | src/thread/DevicesManager.cpp:108-114 | when the offload passes run, the forced pass has switched nothing and its grid power does not depend on the order of the devices |
| ManagerRuns.SwitchedOnIsSelected | src/thread/DevicesManager.cpp:113-124 | a device up for grid offload that a tick turns on was selected by the grid pass, and the battery pass left it alone |
| ManagerRuns.TickOffloadGuarantee | src/thread/DevicesManager.cpp:83-124 | the offload guarantee for a whole tick, in terms of the devices at its start and the stream sampled by the statistics |
| ManagerRuns.OffloadHappens | src/thread/DevicesManager.cpp:83-124 | the guarantee is not empty: a tick after one second of 500 watts that turns on a device up for grid offload, with the power it needs within the buckets |
| Ticks.DevicesManager.Classify | src/thread/DevicesManager.cpp:83-106 | the class of every device, or the exception of the first decision that throws |
| Ticks.DevicesManager.Passes | src/thread/DevicesManager.cpp:108-124 | forced pass, cooldown gate and offload passes on the devices themselves |
| Ticks.DevicesManager.Tick | src/thread/DevicesManager.cpp:67-139 | the whole tick on the devices themselves; when a decision throws, nothing at all happens |
| Histories.FromValue | src/energy/Amount.cpp:28-34 | the whole amount counts as off-peak at the off-peak rate and as peak otherwise, and both make the energy |
| Histories.TotalsSumIsTotalSince | include/stat/History.hpp:94-108 | adding up per period is adding up per event |
| Histories.FaithfulAdd | include/stat/History.hpp:83-92 | in-memory and stored entries stay the totals of their periods when an amount is added |
| Histories.FaithfulPurge | include/stat/History.hpp:55-70 | and when old entries move to the store |
| Histories.FaithfulSave | src/energy/HistoryDay.cpp:54-71 | saving makes the store alone know the total of every period |
| Histories.FaithfulRestart | src/energy/HistoryDay.cpp:32-52 | destruction and construction lose nothing |
| Histories.LookupIsTotal | include/stat/History.hpp:55-92 | conservation: the in-memory value if present, else the stored one, is the sum of all amounts ever added in the period |
| Histories.MemoryTotal | include/stat/History.hpp:94-108 | within the retention the entries in memory add up to everything added since |
| Histories.BeyondRetentionMisses | include/stat/History.hpp:94-108 | beyond the retention some history is answered wrongly: whatever was added first is missing |
| Histories.History.Purge | include/stat/History.hpp:55-70 | moves exactly the entries older than the retention to the store |
| Histories.History.Add | include/stat/History.hpp:83-92 | keeps the history faithful to everything added |
| Histories.History.GetTotalForLast | include/stat/History.hpp:94-108 | the sum of the entries in memory from nperiods ago on, which is the sum over all events since when nperiods is within the retention |
| Histories.History.GetTotalForCurrent | include/stat/History.hpp:110-119 | the sum of all amounts added in the current period |
| Histories.History.Sync | include/stat/History.hpp:37-41 | afterwards the store alone knows every total |
| Histories.History.Restart | src/energy/HistoryDay.cpp:32-52 | a restart keeps the history faithful to everything added, or forgets everything when it has no type |
| Counters.DayIsSumOfQuarters | src/energy/Counter.cpp:53-65 | with both resolutions fed the same amounts, a day's total is the sum of its quarter hours |
| Counters.ReadsTodayIff | src/energy/Counter.cpp:42-82 | the cached value reads as today's total if and only if today does not have the day of the year of the cache with something added in another year since it came up |
| Counters.RecoversOnAnotherDay | src/energy/Counter.cpp:42-82 | otherwise it reads too much, and is right again on any other day of the year |
| Counters.NeverStaleWithinAYear | src/energy/Counter.cpp:44-45 | within 365 days after the day of the year came up it always reads right |
| Counters.NeverStaleInUse | src/energy/Counter.cpp:42-51 | over every run of additions with gaps below a year, and a reading below a year after the last, it always reads right |
| Counters.StaleHappens | src/energy/Counter.cpp:68-74 | what was added on a new year's day still reads as today's on the next |
| Counters.Counter.Load | src/energy/Counter.cpp:29-40 | a counter over the stored rows agrees with everything they record, and its cache starts with today's totals |
| Counters.Counter.Restart | src/energy/Counter.cpp:29-40 | a restart keeps everything added in the histories that have a type, and the cache starts again with today's total |
| Counters.Counter.AddEnergy | src/energy/Counter.cpp:42-66 | at any later instant both resolutions get the same amounts, and only positive ones, and the cache holds everything added since the day of the year last changed |
| Counters.EntryCounts | src/energy/Counter.cpp:53-65 | an addition counts its whole value, if positive, for the day and the quarter hour of now, at the rate of now, and nothing elsewhere |
| Counters.Counter.GetEnergyConsumption | src/energy/Counter.cpp:68-74 | the sum of everything added today if and only if the cache is not stale, with peak and off-peak making the whole; otherwise everything since the day of the year came up |
| Counters.Counter.GetEnergyExcess | src/energy/Counter.cpp:76-82 | the same for the excess |
| Counters.Counter.GetTotalConsumptionForLast | src/energy/Counter.cpp:84-87 | within the retention the energy of every event since |
| Counters.Counter.SyncHistory | src/energy/Counter.cpp:103-109 | afterwards each stored day row is the sum of its stored quarter-hour rows, for consumption and for excess |
| Meters.ConservedIffFirstPositive | src/sensor/meter/Pro3EM.cpp:92-95 | the energy a never-decreasing counter yields is last minus first total if and only if the first total is positive or nothing was ever counted |
| Meters.AccruedFromFirstCounted | src/sensor/meter/Pro3EM.cpp:92-95 | in every case it is last minus first positive total |
| Meters.CountingFromZeroLoses | src/sensor/meter/Pro3EM.cpp:92-95 | of a counter that starts at zero the first positive total is lost |
| Meters.AccruedRestarts | src/sensor/meter/Pro3EM.cpp:92-95 | a counter that starts again at or below its last total is counted from its new start |
| Meters.Meter.GetConsumption | src/sensor/meter/Meter.cpp:51-57 | hands out the pending consumption and keeps nothing of it |
| Meters.Meter.GetExcess | src/sensor/meter/Meter.cpp:59-65 | the same for the excess |
| Meters.ProEM.HandleMessage | src/sensor/meter/ProEM.cpp:60-92 | what the meter received is what its followed phases reported, phase by phase |
| Meters.Pro3EM.HandleMessage | src/sensor/meter/Pro3EM.cpp:74-103 | what the meter received is what the followed phase, or the sum of all, reported |
| Meters.PVPowerRatio | src/energy/GlobalMeter.cpp:143-154 | the share of solar power in all power; in [0, 1], 1 exactly without import, 0 without solar power |
| Meters.SolarPartBelow | src/device/electrical/Electrical.cpp:159-162 | the solar part of a consumption never exceeds it |
| Meters.SolarPartIs | src/device/electrical/Electrical.cpp:159-162 | the solar part is all without import, nothing without solar power, and otherwise relates to the consumption as the solar power to all power |
| Meters.NeverMoreEntry | src/device/electrical/Electrical.cpp:156-162 | logging keeps the offloaded energy of every day at most the consumed energy of that day |
| Meters.Electrical.MeterChanged | src/device/electrical/Electrical.cpp:156-162 | drains the meter: everything it ever received is then in the logs, and the solar part in the offload log |
| Meters.LoggedPlusPending | src/sensor/meter/ProEM.cpp:60-92 | for never-decreasing totals, logged plus pending consumption is at most the sum over the phases of last minus first total, and equal if and only if no phase starts counting from zero |
| Meters.LoggedPlusPendingExcess | src/sensor/meter/ProEM.cpp:87-90 | the same for the exported energy, whatever the consumption does |
| Meters.LoggedPlusPendingThree | src/sensor/meter/Pro3EM.cpp:74-103 | the consumption of a three-phase meter |
| Meters.LoggedPlusPendingThreeExcess | src/sensor/meter/Pro3EM.cpp:97-100 | and its exported energy |
| Meters.Interleave | src/device/electrical/Electrical.cpp:140-164 | for every interleaving of messages and drains, meter and device keep their invariants, the meter has seen what the messages report, and the conservation holds in both directions, for the same exact condition |
| Meters.InterleaveThree | src/device/electrical/Electrical.cpp:140-164 | the same for a three-phase meter |

## Left out

- Meters.Electrical.MeterChanged: the conservation is stated for counters that start over an empty database, not for loaded
  ones.
- HigherFrequencies.HigherFrequency.GetFrequency: an index without any bucket is excluded, because the code then reads past
  the end of an empty map; the program's indices have the bucket 0 whenever the offload maximum is not negative.
- Timespans.TimespanHistory.ClockIn: instants are positive and not after the current time, and the wall clock does not go back
  between calls; the reload of the history from the database is not modelled.
- Timespans.TimespanHistory.ClockOut: the same.
- Ticks.DevicesManager.Tick: the switched devices keep their on-time history as a sequence, updated by the functions that
  `Timespans.TimespanHistory` is proved against, and the battery's latches are an object beside its switched device.
- Meters.ProEM.HandleMessage: a message that cannot be decoded counts as one without the phases that were not reached; the
  power, voltage and frequency parts of messages are not modelled.
- Managers.Tick: a relay that fails is a caught exception and lets the pass go on; any other exception inside a pass is not
  modelled. A decision that throws ends the tick.
- Time: daylight saving and `mktime` beyond a fixed offset; a monotonic clock that goes back.
- Doubles: rounding, overflow and NaN, except the 0/0 of an index without samples, which compares as false.
- Concurrency: locks and readings that change in the middle of a tick; every locked method and every tick is one step.
- The controllable power and the solar production given to `Stats.Sample` come from the global meter and the hot water tank,
  which are not part of this model, nor are a change of the statistics' configuration and of the smoothing time.
- Class hierarchy: one class of switched devices with a kind instead of subclasses. The specialisations for temperature,
  ventilation, heat pump and hot water, which partly override the guarantees of time-range devices, are not modelled.
- Whether a time range is active, and the parsing of time ranges and configurations; of the configuration checks only that of
  the charge table, and as an assumption that low thresholds are below high ones.
- The restored state of devices and of the battery after a restart, the debug modes, and `Depends`.
- MQTT, HTTP, websocket, database text, JSON, logs, device factories, the display and the signal handling.
- `MinMax`, weather devices, temperature and estimated time of the battery: they pass values through.
