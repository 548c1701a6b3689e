/** From running totals reported by a meter to logged energy: src/sensor/meter/Meter.cpp, ProEM.cpp, Pro3EM.cpp, the
    power ratio of src/energy/GlobalMeter.cpp and the drain of src/device/electrical/Electrical.cpp. */
module Meters {
  import opened Series
  import opened Histories
  import opened Counters

  /** What one report adds to the pending energy: nothing before a first non-zero total, nothing for a decrease. */
  function Accrual(last: real, total: real): real
  {
    if last == 0.0 || total <= last then 0.0 else total - last
  }

  function LastTotal(totals: seq<real>): real
  {
    if totals == [] then 0.0 else totals[|totals| - 1]
  }

  /** What a whole stream of reports adds. */
  function Accrued(totals: seq<real>): real
  {
    if totals == [] then 0.0
    else Accrued(totals[..|totals| - 1]) + Accrual(LastTotal(totals[..|totals| - 1]), totals[|totals| - 1])
  }

  lemma {:induction false} AccruedNext(totals: seq<real>, total: real)
    ensures Accrued(totals + [total]) == Accrued(totals) + Accrual(LastTotal(totals), total)
    ensures LastTotal(totals + [total]) == total
  {
    assert (totals + [total])[..|totals|] == totals;
  }

  /** A counter that starts at zero or above and never goes back. */
  ghost predicate RunningTotals(totals: seq<real>)
  {
    forall i :: 0 <= i < |totals| ==> 0.0 <= totals[i] && (i > 0 ==> totals[i - 1] <= totals[i])
  }

  /** The first total that is not zero, or the last one if all are. */
  function FirstCounted(totals: seq<real>): real
    requires totals != []
  {
    if totals[0] != 0.0 || |totals| == 1 then totals[0] else FirstCounted(totals[1..])
  }

  lemma {:induction false} AccruedFromFirstCounted(totals: seq<real>)
    requires totals != [] && RunningTotals(totals)
    ensures Accrued(totals) == LastTotal(totals) - FirstCounted(totals)
    ensures FirstCounted(totals) == 0.0 <==> LastTotal(totals) == 0.0
  {
    var n := |totals| - 1;
    if n == 0 {
      assert totals[..0] == [];
    } else {
      AccruedFromFirstCounted(totals[..n]);
      FirstCountedNext(totals);
    }
  }

  lemma {:induction false} FirstCountedNext(totals: seq<real>)
    requires |totals| > 1
    ensures var before := FirstCounted(totals[..|totals| - 1]);
            FirstCounted(totals) == if before != 0.0 then before else totals[|totals| - 1]
  {
    var n := |totals| - 1;
    if totals[0] == 0.0 && n > 1 {
      FirstCountedNext(totals[1..]);
      assert totals[1..][..n - 1] == totals[..n][1..];
    }
  }

  /** The energy a never-decreasing counter reports is the difference of its last and first totals exactly when the
      first total is positive or nothing was ever counted. */
  lemma ConservedIffFirstPositive(totals: seq<real>)
    requires totals != [] && RunningTotals(totals)
    ensures Accrued(totals) == LastTotal(totals) - totals[0] <==> totals[0] > 0.0 || LastTotal(totals) == 0.0
  {
    AccruedFromFirstCounted(totals);
  }

  /** A counter that starts again at or below its last total is counted from its new start: nothing before is counted
      twice, and nothing after is lost. */
  lemma {:induction false} AccruedRestarts(before: seq<real>, after: seq<real>)
    requires after != [] && after[0] <= LastTotal(before)
    ensures Accrued(before + after) == Accrued(before) + Accrued(after)
    ensures LastTotal(before + after) == LastTotal(after)
  {
    var n := |after| - 1;
    if n == 0 {
      assert before + after == before + [after[0]] && after[..0] == [];
      AccruedNext(before, after[0]);
    } else {
      AccruedRestarts(before, after[..n]);
      assert before + after == (before + after[..n]) + [after[n]] && after == after[..n] + [after[n]];
      AccruedNext(before + after[..n], after[n]);
      AccruedNext(after[..n], after[n]);
    }
  }

  /** Pending energy, handed out once. */
  class Meter {
    var energyConsumption: real
    var energyExcess: real
    /** Everything ever added, and everything ever handed out. */
    ghost var received: real
    ghost var receivedExcess: real
    ghost var drained: real
    ghost var drainedExcess: real

    ghost predicate Valid()
      reads this
    {
      && 0.0 <= energyConsumption == received - drained
      && 0.0 <= energyExcess == receivedExcess - drainedExcess
    }

    constructor ()
      ensures Valid() && received == receivedExcess == drained == drainedExcess == 0.0
    {
      energyConsumption, energyExcess := 0.0, 0.0;
      received, receivedExcess, drained, drainedExcess := 0.0, 0.0, 0.0, 0.0;
    }

    method GetConsumption() returns (r: real)
      requires Valid()
      modifies this`energyConsumption, this`drained
      ensures Valid() && energyConsumption == 0.0
      ensures r == old(energyConsumption) && drained == old(drained) + r
    {
      r := energyConsumption;
      energyConsumption := 0.0;
      drained := drained + r;
    }

    method GetExcess() returns (r: real)
      requires Valid()
      modifies this`energyExcess, this`drainedExcess
      ensures Valid() && energyExcess == 0.0
      ensures r == old(energyExcess) && drainedExcess == old(drainedExcess) + r
    {
      r := energyExcess;
      energyExcess := 0.0;
      drainedExcess := drainedExcess + r;
    }

    /** The common end of the message handlers: a positive delta is added, anything else ignored. */
    method Accumulate(consumptionDelta: real, excessDelta: real)
      requires Valid()
      modifies this`energyConsumption, this`energyExcess, this`received, this`receivedExcess
      ensures Valid()
      ensures received == old(received) + MaxReal(consumptionDelta, 0.0)
      ensures receivedExcess == old(receivedExcess) + MaxReal(excessDelta, 0.0)
    {
      if consumptionDelta > 0.0 {
        energyConsumption := energyConsumption + consumptionDelta;
        received := received + consumptionDelta;
      }
      if excessDelta > 0.0 {
        energyExcess := energyExcess + excessDelta;
        receivedExcess := receivedExcess + excessDelta;
      }
    }
  }

  datatype Totals = Totals(consumption: real, excess: real)

  function Consumptions(reports: seq<Totals>): (r: seq<real>)
    ensures |r| == |reports| && forall i :: 0 <= i < |r| ==> r[i] == reports[i].consumption
  {
    seq(|reports|, i requires 0 <= i < |reports| => reports[i].consumption)
  }

  function Excesses(reports: seq<Totals>): (r: seq<real>)
    ensures |r| == |reports| && forall i :: 0 <= i < |r| ==> r[i] == reports[i].excess
  {
    seq(|reports|, i requires 0 <= i < |reports| => reports[i].excess)
  }

  lemma ReportNext(reports: seq<Totals>, t: Totals)
    ensures Accrued(Consumptions(reports + [t]))
         == Accrued(Consumptions(reports)) + Accrual(LastTotal(Consumptions(reports)), t.consumption)
    ensures LastTotal(Consumptions(reports + [t])) == t.consumption
    ensures Accrued(Excesses(reports + [t]))
         == Accrued(Excesses(reports)) + Accrual(LastTotal(Excesses(reports)), t.excess)
    ensures LastTotal(Excesses(reports + [t])) == t.excess
  {
    AccruedNext(Consumptions(reports), t.consumption);
    AccruedNext(Excesses(reports), t.excess);
    assert Consumptions(reports + [t]) == Consumptions(reports) + [t.consumption];
    assert Excesses(reports + [t]) == Excesses(reports) + [t.excess];
  }

  /** A two-phase meter; phase -1 follows both phases. */
  class ProEM {
    const phase: int
    const meter: Meter
    const lastConsumption: array<real>
    const lastExcess: array<real>
    /** Every report of the followed phases. */
    ghost var reports: seq<seq<Totals>>

    ghost predicate Valid()
      reads this, meter, lastConsumption, lastExcess
    {
      && -1 <= phase < 2 && lastConsumption != lastExcess && lastConsumption.Length == lastExcess.Length == 2
      && |reports| == 2 && meter.Valid()
      && (forall i :: 0 <= i < 2 ==> lastConsumption[i] == LastTotal(Consumptions(reports[i])))
      && (forall i :: 0 <= i < 2 ==> lastExcess[i] == LastTotal(Excesses(reports[i])))
      && meter.received == Accrued(Consumptions(reports[0])) + Accrued(Consumptions(reports[1]))
      && meter.receivedExcess == Accrued(Excesses(reports[0])) + Accrued(Excesses(reports[1]))
    }

    constructor (phase: int)
      requires -1 <= phase < 2
      ensures Valid() && fresh(meter) && fresh(lastConsumption) && fresh(lastExcess)
      ensures reports == [[], []] && this.phase == phase && meter.drained == meter.drainedExcess == 0.0
    {
      this.phase := phase;
      meter := new Meter();
      lastConsumption := new real[2](_ => 0.0);
      lastExcess := new real[2](_ => 0.0);
      reports := [[], []];
    }

    predicate Follows(i: int)
    {
      phase == -1 || i == phase
    }

    /** The energy part of a message: each phase's totals, where the message carries them. */
    method HandleMessage(data: seq<Option<Totals>>)
      requires Valid() && |data| == 2
      modifies this, meter, lastConsumption, lastExcess
      ensures Valid()
      ensures meter.drained == old(meter.drained) && meter.drainedExcess == old(meter.drainedExcess)
      ensures forall i :: 0 <= i < 2 ==>
        reports[i] == old(reports[i]) + if Follows(i) && data[i].Some? then [data[i].value] else []
    {
      hide Accrued, LastTotal, Consumptions, Excesses;
      for i := 0 to 2
        invariant Valid()
        invariant meter.drained == old(meter.drained) && meter.drainedExcess == old(meter.drainedExcess)
        invariant forall j :: 0 <= j < i ==>
          reports[j] == old(reports[j]) + if Follows(j) && data[j].Some? then [data[j].value] else []
        invariant forall j :: i <= j < 2 ==> reports[j] == old(reports[j])
      {
        if Follows(i) && data[i].Some? {
          HandlePhase(i, data[i].value);
        }
      }
    }

    method HandlePhase(i: nat, t: Totals)
      requires Valid() && i < 2
      modifies this, meter, lastConsumption, lastExcess
      ensures Valid() && reports == old(reports)[i := old(reports)[i] + [t]]
      ensures meter.drained == old(meter.drained) && meter.drainedExcess == old(meter.drainedExcess)
    {
      hide Accrued, LastTotal, Consumptions, Excesses;
      ReportNext(reports[i], t);
      var consumptionDelta := if lastConsumption[i] == 0.0 then 0.0 else t.consumption - lastConsumption[i];
      lastConsumption[i] := t.consumption;
      var excessDelta := if lastExcess[i] == 0.0 then 0.0 else t.excess - lastExcess[i];
      lastExcess[i] := t.excess;
      meter.Accumulate(consumptionDelta, excessDelta);
      reports := reports[i := reports[i] + [t]];
    }
  }

  /** A three-phase meter following one phase or, as phase 3, the sum of all. */
  class Pro3EM {
    const phase: nat
    const meter: Meter
    var lastConsumption: real
    var lastExcess: real
    ghost var reports: seq<Totals>

    ghost predicate Valid()
      reads this, meter
    {
      && phase <= 3 && meter.Valid()
      && lastConsumption == LastTotal(Consumptions(reports)) && lastExcess == LastTotal(Excesses(reports))
      && meter.received == Accrued(Consumptions(reports)) && meter.receivedExcess == Accrued(Excesses(reports))
    }

    constructor (phase: nat)
      requires phase <= 3
      ensures Valid() && fresh(meter) && reports == [] && this.phase == phase
      ensures meter.drained == meter.drainedExcess == 0.0
    {
      this.phase := phase;
      meter := new Meter();
      lastConsumption, lastExcess := 0.0, 0.0;
      reports := [];
    }

    method HandleMessage(data: seq<Totals>)
      requires Valid() && |data| == 3
      modifies this, meter
      ensures Valid() && reports == old(reports) + [Selected(data, phase)]
      ensures var report := reports[|old(reports)|];
              && (phase < 3 ==> report.consumption == data[phase].consumption && report.excess == data[phase].excess)
              && (phase == 3 ==>
                    && report.consumption == data[0].consumption + data[1].consumption + data[2].consumption
                    && report.excess == data[0].excess + data[1].excess + data[2].excess)
      ensures meter.drained == old(meter.drained) && meter.drainedExcess == old(meter.drainedExcess)
    {
      hide Accrued, LastTotal, Consumptions, Excesses;
      var totalConsumption, totalExcess;
      if phase == 3 {
        totalConsumption := data[0].consumption + data[1].consumption + data[2].consumption;
        totalExcess := data[0].excess + data[1].excess + data[2].excess;
      } else {
        totalConsumption, totalExcess := data[phase].consumption, data[phase].excess;
      }
      ReportNext(reports, Totals(totalConsumption, totalExcess));
      var consumptionDelta := if lastConsumption == 0.0 then 0.0 else totalConsumption - lastConsumption;
      lastConsumption := totalConsumption;
      var excessDelta := if lastExcess == 0.0 then 0.0 else totalExcess - lastExcess;
      lastExcess := totalExcess;
      meter.Accumulate(consumptionDelta, excessDelta);
      reports := reports + [Totals(totalConsumption, totalExcess)];
    }
  }

  function Selected(data: seq<Totals>, phase: nat): Totals
    requires |data| == 3 && phase <= 3
  {
    if phase < 3 then data[phase]
    else Totals(data[0].consumption + data[1].consumption + data[2].consumption,
                data[0].excess + data[1].excess + data[2].excess)
  }

  // ---------------------------------------------------------------- solar share

  /** GetPVPower and GetPVPowerRatio. */
  function PVPowerRatio(pvPower: real, gridPower: real): (r: real)
    ensures 0.0 <= r <= 1.0
    ensures r == 1.0 <==> gridPower <= 0.0
    ensures gridPower > 0.0 && pvPower <= 0.0 ==> r == 0.0
    ensures gridPower > 0.0 && pvPower >= 0.0 ==> r * (pvPower + gridPower) == pvPower
  {
    if gridPower <= 0.0 then 1.0
    else
      var pv := MaxReal(pvPower, 0.0);
      ShareBelowOne(pv, gridPower);
      var ratio := pv / (pv + gridPower);
      if ratio > 1.0 then 1.0 else ratio
  }

  lemma ShareBelowOne(pv: real, grid: real)
    requires pv >= 0.0 && grid > 0.0
    ensures 0.0 <= pv / (pv + grid) < 1.0
    ensures pv == 0.0 ==> pv / (pv + grid) == 0.0
    ensures pv / (pv + grid) * (pv + grid) == pv
  {
    assert pv / (pv + grid) * (pv + grid) == pv;
  }

  // ---------------------------------------------------------------- the log

  /** Energy of all events together. */
  function AllEnergy(events: seq<Event>): real
  {
    if events == [] then 0.0 else AllEnergy(events[..|events| - 1]) + events[|events| - 1].amount.energy
  }

  lemma {:induction false} AllEnergyEntry(events: seq<Event>, val: real, now: Clock)
    requires val >= 0.0
    ensures AllEnergy(events + Entry(val, now)) == AllEnergy(events) + val
  {
    if val > 0.0 {
      assert (events + Entry(val, now))[..|events|] == events;
    } else {
      assert events + Entry(val, now) == events;
    }
  }

  /** On every day the first log holds no more energy than the second. */
  ghost predicate NeverMore(offload: seq<Event>, consumption: seq<Event>)
  {
    forall d :: TotalIn(offload, d).energy <= TotalIn(consumption, d).energy
  }

  lemma NeverMoreEntry(offload: seq<Event>, consumption: seq<Event>, part: real, val: real, now: Clock)
    requires NeverMore(offload, consumption) && 0.0 <= part <= val
    ensures NeverMore(offload + Entry(part, now), consumption + Entry(val, now))
  {
    forall d
      ensures TotalIn(offload + Entry(part, now), d).energy <= TotalIn(consumption + Entry(val, now), d).energy
    {
      assert TotalIn(offload, d).energy <= TotalIn(consumption, d).energy;
      EntryEnergy(offload, part, now, d);
      EntryEnergy(consumption, val, now, d);
    }
  }

  /** The solar part of a consumption never exceeds it. */
  lemma SolarPartBelow(consumption: real, pvPower: real, gridPower: real)
    requires consumption >= 0.0
    ensures 0.0 <= SolarPart(consumption, pvPower, gridPower) <= consumption
  {
    hide PVPowerRatio;
  }

  /** Without import everything counts as solar, without solar power nothing, and otherwise the part relates to the
      consumption as the solar power to all power. */
  lemma SolarPartIs(consumption: real, pvPower: real, gridPower: real)
    ensures gridPower <= 0.0 ==> SolarPart(consumption, pvPower, gridPower) == consumption
    ensures gridPower > 0.0 && pvPower <= 0.0 ==> SolarPart(consumption, pvPower, gridPower) == 0.0
    ensures gridPower > 0.0 && pvPower >= 0.0 ==>
      SolarPart(consumption, pvPower, gridPower) * (pvPower + gridPower) == consumption * pvPower
  {
    hide PVPowerRatio;
    var r, all := PVPowerRatio(pvPower, gridPower), pvPower + gridPower;
    Regroup(consumption, r, all);
  }

  lemma Regroup(a: real, b: real, c: real)
    ensures a * b * c == a * (b * c)
  {
  }

  lemma EntryEnergy(events: seq<Event>, val: real, now: Clock, d: int)
    requires val >= 0.0
    ensures TotalIn(events + Entry(val, now), d).energy
         == TotalIn(events, d).energy + if d == DayNumber(now.date) then val else 0.0
  {
    hide DayNumber, TotalIn;
    if val > 0.0 {
      AddedTotals(events, Event(DayNumber(now.date), FromValue(val, now.offPeak)), d);
    } else {
      assert events + Entry(val, now) == events;
    }
  }

  lemma NothingLogged()
    ensures AllEnergy([]) == 0.0 && NeverMore([], [])
  {
  }

  /** The part of a device's consumption counted as solar. */
  function SolarPart(consumption: real, pvPower: real, gridPower: real): real
  {
    consumption * PVPowerRatio(pvPower, gridPower)
  }

  class Electrical {
    const meter: Meter
    const consumption: Counter
    const offload: Counter

    ghost function Objects(): set<object>
    {
      {meter, consumption, offload} + consumption.Objects() + offload.Objects()
    }

    /** All energy drained from the meter was logged, and no day has more offloaded than consumed energy. */
    ghost predicate Valid()
      reads Objects()
    {
      && consumption != offload && consumption.Objects() !! offload.Objects()
      && meter.Valid() && consumption.Valid() && offload.Valid()
      && consumption.last == offload.last && consumption.seen == offload.seen
      && AllEnergy(consumption.consumptionHistory.added) == meter.drained
      && AllEnergy(consumption.excessHistory.added) == meter.drainedExcess
      && NeverMore(offload.consumptionHistory.added, consumption.consumptionHistory.added)
    }

    constructor (meter: Meter, retention: nat, excessPersisted: bool, now: Clock)
      requires meter.Valid() && meter.drained == meter.drainedExcess == 0.0 && now.Valid()
      ensures Valid() && this.meter == meter && fresh(Objects() - {meter})
    {
      hide AllEnergy, NeverMore, Counter.Valid, DayNumber;
      NothingLogged();
      this.meter := meter;
      consumption := new Counter(retention, true, excessPersisted, now);
      offload := new Counter(retention, true, false, now);
    }

    /** The energy part of a meter report. Logged plus pending energy stays what the meter received. */
    method MeterChanged(pvPower: real, gridPower: real, now: Clock)
      requires Valid() && Follows(consumption.seen, now)
      modifies Objects()
      ensures Valid() && meter.energyConsumption == meter.energyExcess == 0.0 && consumption.seen == now
      ensures meter.received == old(meter.received) && meter.receivedExcess == old(meter.receivedExcess)
      ensures AllEnergy(consumption.consumptionHistory.added) == meter.received
      ensures AllEnergy(consumption.excessHistory.added) == meter.receivedExcess
      ensures offload.consumptionHistory.added == old(offload.consumptionHistory.added)
        + Entry(SolarPart(old(meter.energyConsumption), pvPower, gridPower), now)
      ensures consumption.consumptionHistory.added == old(consumption.consumptionHistory.added)
        + Entry(old(meter.energyConsumption), now)
      ensures consumption.excessHistory.added == old(consumption.excessHistory.added)
        + Entry(old(meter.energyExcess), now)
    {
      hide AllEnergy, NeverMore, SolarPart, Counter.Valid, Entry;
      var deviceConsumption := meter.GetConsumption();
      var deviceExcess := meter.GetExcess();
      AllEnergyEntry(consumption.consumptionHistory.added, deviceConsumption, now);
      AllEnergyEntry(consumption.excessHistory.added, deviceExcess, now);
      var solar := SolarPart(deviceConsumption, pvPower, gridPower);
      SolarPartBelow(deviceConsumption, pvPower, gridPower);
      NeverMoreEntry(offload.consumptionHistory.added, consumption.consumptionHistory.added, solar, deviceConsumption,
                     now);
      consumption.AddEnergy(deviceConsumption, deviceExcess, now);
      offload.AddEnergy(solar, 0.0, now);
    }
  }

  // ---------------------------------------------------------------- from the reports to the log

  /** Last minus first total. */
  function Progress(totals: seq<real>): real
  {
    if totals == [] then 0.0 else LastTotal(totals) - totals[0]
  }

  /** Nothing is lost of these totals: counting starts at a positive total, or there is nothing to count. */
  predicate Counted(totals: seq<real>)
  {
    totals == [] || totals[0] > 0.0 || LastTotal(totals) == 0.0
  }

  lemma AccruedIsProgressIff(totals: seq<real>)
    requires RunningTotals(totals)
    ensures Accrued(totals) <= Progress(totals)
    ensures Accrued(totals) == Progress(totals) <==> Counted(totals)
  {
    if totals != [] {
      ConservedIffFirstPositive(totals);
      AccruedFromFirstCounted(totals);
      FirstCountedAbove(totals);
    }
  }

  /** It happens: of a counter that starts at zero, the first total is lost. */
  lemma CountingFromZeroLoses(total: real)
    requires total > 0.0
    ensures RunningTotals([0.0, total]) && !Counted([0.0, total])
    ensures Progress([0.0, total]) == total && Accrued([0.0, total]) == 0.0
  {
    assert [0.0, total][..1] == [0.0] && [0.0][..0] == [];
  }

  lemma {:induction false} FirstCountedAbove(totals: seq<real>)
    requires totals != [] && RunningTotals(totals)
    ensures totals[0] <= FirstCounted(totals)
  {
    if totals[0] == 0.0 && |totals| > 1 {
      assert RunningTotals(totals[1..]);
      FirstCountedAbove(totals[1..]);
    }
  }

  /** End to end, for a two-phase meter whose totals never decrease: logged plus pending consumption is never more
      than the sum over the phases of last minus first total, and equal to it exactly when no phase starts counting
      from zero. */
  lemma LoggedPlusPending(em: ProEM, device: Electrical)
    requires em.Valid() && device.Valid() && device.meter == em.meter
    requires RunningTotals(Consumptions(em.reports[0])) && RunningTotals(Consumptions(em.reports[1]))
    ensures var logged := AllEnergy(device.consumption.consumptionHistory.added) + em.meter.energyConsumption;
            var progress := Progress(Consumptions(em.reports[0])) + Progress(Consumptions(em.reports[1]));
            && logged <= progress
            && (logged == progress <==> Counted(Consumptions(em.reports[0])) && Counted(Consumptions(em.reports[1])))
  {
    hide Accrued, Progress, Counted, RunningTotals, Consumptions, Excesses, Counter.Valid, NeverMore, LastTotal,
      AllEnergy;
    AccruedIsProgressIff(Consumptions(em.reports[0]));
    AccruedIsProgressIff(Consumptions(em.reports[1]));
  }

  /** The same for the exported energy, whatever the consumption does. */
  lemma LoggedPlusPendingExcess(em: ProEM, device: Electrical)
    requires em.Valid() && device.Valid() && device.meter == em.meter
    requires RunningTotals(Excesses(em.reports[0])) && RunningTotals(Excesses(em.reports[1]))
    ensures var logged := AllEnergy(device.consumption.excessHistory.added) + em.meter.energyExcess;
            var progress := Progress(Excesses(em.reports[0])) + Progress(Excesses(em.reports[1]));
            && logged <= progress
            && (logged == progress <==> Counted(Excesses(em.reports[0])) && Counted(Excesses(em.reports[1])))
  {
    hide Accrued, Progress, Counted, RunningTotals, Consumptions, Excesses, Counter.Valid, NeverMore, LastTotal,
      AllEnergy;
    AccruedIsProgressIff(Excesses(em.reports[0]));
    AccruedIsProgressIff(Excesses(em.reports[1]));
  }

  /** The same for the consumption of a three-phase meter, which reports the followed phase or the sum of all. */
  lemma LoggedPlusPendingThree(em: Pro3EM, device: Electrical)
    requires em.Valid() && device.Valid() && device.meter == em.meter && RunningTotals(Consumptions(em.reports))
    ensures var logged := AllEnergy(device.consumption.consumptionHistory.added) + em.meter.energyConsumption;
            && logged <= Progress(Consumptions(em.reports))
            && (logged == Progress(Consumptions(em.reports)) <==> Counted(Consumptions(em.reports)))
  {
    AccruedIsProgressIff(Consumptions(em.reports));
  }

  lemma LoggedPlusPendingThreeExcess(em: Pro3EM, device: Electrical)
    requires em.Valid() && device.Valid() && device.meter == em.meter && RunningTotals(Excesses(em.reports))
    ensures var logged := AllEnergy(device.consumption.excessHistory.added) + em.meter.energyExcess;
            && logged <= Progress(Excesses(em.reports))
            && (logged == Progress(Excesses(em.reports)) <==> Counted(Excesses(em.reports)))
  {
    AccruedIsProgressIff(Excesses(em.reports));
  }

  // ---------------------------------------------------------------- messages and drains in any order

  /** A message from the meter, with the totals it carries, or a drain into the device's counters. */
  datatype Step<M> = Message(data: M) | Drain(pvPower: real, gridPower: real, now: Clock)

  /** The instants of the drains follow each other. */
  ghost predicate InOrder<M>(steps: seq<Step<M>>, seen: Clock)
    decreases steps
  {
    if steps == [] then true
    else if steps[0].Message? then InOrder(steps[1..], seen)
    else Follows(seen, steps[0].now) && InOrder(steps[1..], steps[0].now)
  }

  /** What phase i of a two-phase meter reports in the steps. */
  ghost function Reported(steps: seq<Step<seq<Option<Totals>>>>, phase: int, i: nat): seq<Totals>
    requires i < 2 && forall s :: s in steps && s.Message? ==> |s.data| == 2
  {
    if steps == [] then []
    else
      var n := |steps| - 1;
      var follows := phase == -1 || phase == i;
      Reported(steps[..n], phase, i) +
        if steps[n].Message? && follows && steps[n].data[i].Some? then [steps[n].data[i].value] else []
  }

  ghost function ReportedThree(steps: seq<Step<seq<Totals>>>, phase: nat): seq<Totals>
    requires phase <= 3 && forall s :: s in steps && s.Message? ==> |s.data| == 3
  {
    if steps == [] then []
    else
      var n := |steps| - 1;
      ReportedThree(steps[..n], phase) + if steps[n].Message? then [Selected(steps[n].data, phase)] else []
  }

  /** Any interleaving of messages and drains, from the start: meter and device keep their invariants, the meter has
      seen exactly what was reported, and so logged plus pending energy is the progress of what was reported, unless a
      phase starts counting from zero. */
  method Interleave(em: ProEM, device: Electrical, steps: seq<Step<seq<Option<Totals>>>>)
    requires em.Valid() && device.Valid() && device.meter == em.meter && em.reports == [[], []]
    requires InOrder(steps, device.consumption.seen) && forall s :: s in steps && s.Message? ==> |s.data| == 2
    modifies em, em.lastConsumption, em.lastExcess, device.Objects()
    ensures em.Valid() && device.Valid()
    ensures forall i :: 0 <= i < 2 ==> em.reports[i] == Reported(steps, em.phase, i)
    ensures var c0, c1 := Consumptions(Reported(steps, em.phase, 0)), Consumptions(Reported(steps, em.phase, 1));
            var logged := AllEnergy(device.consumption.consumptionHistory.added) + em.meter.energyConsumption;
            RunningTotals(c0) && RunningTotals(c1) ==>
              (logged == Progress(c0) + Progress(c1) <==> Counted(c0) && Counted(c1))
    ensures var e0, e1 := Excesses(Reported(steps, em.phase, 0)), Excesses(Reported(steps, em.phase, 1));
            var logged := AllEnergy(device.consumption.excessHistory.added) + em.meter.energyExcess;
            RunningTotals(e0) && RunningTotals(e1) ==>
              (logged == Progress(e0) + Progress(e1) <==> Counted(e0) && Counted(e1))
  {
    hide Accrued, Progress, Counted, RunningTotals, Consumptions, Excesses, Counter.Valid, NeverMore, LastTotal,
      AllEnergy,
      ProEM.Valid, Electrical.Valid;
    assert steps[0..] == steps && steps[..0] == [];
    for k := 0 to |steps|
      invariant em.Valid() && device.Valid() && |em.reports| == 2
      invariant InOrder(steps[k..], device.consumption.seen)
      invariant forall i :: 0 <= i < 2 ==> em.reports[i] == Reported(steps[..k], em.phase, i)
    {
      assert steps[k..][1..] == steps[k + 1..] && steps[..k + 1][..k] == steps[..k];
      Advance(em, device, steps[k]);
    }
    assert steps[..|steps|] == steps;
    if RunningTotals(Consumptions(em.reports[0])) && RunningTotals(Consumptions(em.reports[1])) {
      LoggedPlusPending(em, device);
    }
    if RunningTotals(Excesses(em.reports[0])) && RunningTotals(Excesses(em.reports[1])) {
      LoggedPlusPendingExcess(em, device);
    }
  }

  /** One step keeps both invariants. */
  method Advance(em: ProEM, device: Electrical, step: Step<seq<Option<Totals>>>)
    requires em.Valid() && device.Valid() && device.meter == em.meter
    requires if step.Message? then |step.data| == 2 else Follows(device.consumption.seen, step.now)
    modifies em, em.lastConsumption, em.lastExcess, device.Objects()
    ensures em.Valid() && device.Valid() && |em.reports| == |old(em.reports)| == 2
    ensures device.consumption.seen == if step.Message? then old(device.consumption.seen) else step.now
    ensures forall i :: 0 <= i < 2 ==>
      em.reports[i] == old(em.reports[i]) +
        if step.Message? && (em.phase == -1 || em.phase == i) && step.data[i].Some? then [step.data[i].value] else []
  {
    hide ProEM.Valid, Electrical.Valid;
    match step {
      case Message(data) => Receive(em, device, data);
      case Drain(pvPower, gridPower, now) => Empty(em, device, pvPower, gridPower, now);
    }
  }

  /** A message does not disturb the device. */
  method Receive(em: ProEM, device: Electrical, data: seq<Option<Totals>>)
    requires em.Valid() && device.Valid() && device.meter == em.meter && |data| == 2
    modifies em, em.meter, em.lastConsumption, em.lastExcess
    ensures em.Valid() && device.Valid() && |em.reports| == |old(em.reports)| == 2
    ensures device.consumption.seen == old(device.consumption.seen)
    ensures forall i :: 0 <= i < 2 ==>
      em.reports[i] == old(em.reports[i]) +
        if (em.phase == -1 || em.phase == i) && data[i].Some? then [data[i].value] else []
  {
    hide Accrued, Consumptions, Excesses, Counter.Valid, NeverMore, LastTotal, AllEnergy;
    em.HandleMessage(data);
  }

  /** A drain does not disturb the meter's phases. */
  method Empty(em: ProEM, device: Electrical, pvPower: real, gridPower: real, now: Clock)
    requires em.Valid() && device.Valid() && device.meter == em.meter && Follows(device.consumption.seen, now)
    modifies device.Objects()
    ensures em.Valid() && device.Valid() && |em.reports| == 2 && em.reports == old(em.reports)
    ensures device.consumption.seen == now
  {
    hide Accrued, Consumptions, Excesses, Counter.Valid, NeverMore, LastTotal, AllEnergy, Entry, Electrical.Valid;
    MeterOf(device);
    device.MeterChanged(pvPower, gridPower, now);
    MeterOf(device);
  }

  lemma MeterOf(device: Electrical)
    requires device.Valid()
    ensures device.meter.Valid()
  {
  }

  /** The same for a three-phase meter. */
  method InterleaveThree(em: Pro3EM, device: Electrical, steps: seq<Step<seq<Totals>>>)
    requires em.Valid() && device.Valid() && device.meter == em.meter && em.reports == []
    requires InOrder(steps, device.consumption.seen) && forall s :: s in steps && s.Message? ==> |s.data| == 3
    modifies em, device.Objects()
    ensures em.Valid() && device.Valid() && em.reports == ReportedThree(steps, em.phase)
    ensures var c := Consumptions(ReportedThree(steps, em.phase));
            var logged := AllEnergy(device.consumption.consumptionHistory.added) + em.meter.energyConsumption;
            RunningTotals(c) ==> (logged == Progress(c) <==> Counted(c))
    ensures var e := Excesses(ReportedThree(steps, em.phase));
            var logged := AllEnergy(device.consumption.excessHistory.added) + em.meter.energyExcess;
            RunningTotals(e) ==> (logged == Progress(e) <==> Counted(e))
  {
    hide Accrued, Progress, Counted, RunningTotals, Consumptions, Excesses, Counter.Valid, NeverMore, LastTotal,
      AllEnergy,
      Electrical.Valid;
    assert steps[0..] == steps && steps[..0] == [];
    for k := 0 to |steps|
      invariant em.Valid() && device.Valid() && InOrder(steps[k..], device.consumption.seen)
      invariant em.reports == ReportedThree(steps[..k], em.phase)
    {
      assert steps[k..][1..] == steps[k + 1..] && steps[..k + 1][..k] == steps[..k];
      AdvanceThree(em, device, steps[k]);
    }
    assert steps[..|steps|] == steps;
    if RunningTotals(Consumptions(em.reports)) {
      LoggedPlusPendingThree(em, device);
    }
    if RunningTotals(Excesses(em.reports)) {
      LoggedPlusPendingThreeExcess(em, device);
    }
  }

  method AdvanceThree(em: Pro3EM, device: Electrical, step: Step<seq<Totals>>)
    requires em.Valid() && device.Valid() && device.meter == em.meter
    requires if step.Message? then |step.data| == 3 else Follows(device.consumption.seen, step.now)
    modifies em, device.Objects()
    ensures em.Valid() && device.Valid()
    ensures device.consumption.seen == if step.Message? then old(device.consumption.seen) else step.now
    ensures em.reports == old(em.reports) + if step.Message? then [Selected(step.data, em.phase)] else []
  {
    hide Accrued, Consumptions, Excesses, Counter.Valid, NeverMore, LastTotal, AllEnergy, Entry;
    match step {
      case Message(data) => em.HandleMessage(data);
      case Drain(pvPower, gridPower, now) => device.MeterChanged(pvPower, gridPower, now);
    }
  }
}
