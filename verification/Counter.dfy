/** Today's cached energy and the day and quarter-hour histories behind it: src/energy/Counter.cpp. */
module Counters {
  import opened Histories

  // ---------------------------------------------------------------- the calendar

  function Leap(year: int): int
  {
    if year % 4 == 0 && (year % 100 != 0 || year % 400 == 0) then 1 else 0
  }

  /** yday counts from 0, as tm_yday does. */
  datatype Date = Date(year: int, yday: int)
  {
    predicate Valid()
    {
      year >= 1 && 0 <= yday < 365 + Leap(year)
    }
  }

  /** Days of the Gregorian calendar before the first of January. */
  function DaysBefore(year: int): int
  {
    365 * year + (year - 1) / 4 - (year - 1) / 100 + (year - 1) / 400
  }

  function DayNumber(d: Date): int
  {
    DaysBefore(d.year) + d.yday
  }

  lemma YearLength(year: int)
    ensures DaysBefore(year + 1) == DaysBefore(year) + 365 + Leap(year)
  {
    var n := year - 1;
    assert (n + 1) / 4 == n / 4 + (if year % 4 == 0 then 1 else 0);
    assert (n + 1) / 100 == n / 100 + (if year % 100 == 0 then 1 else 0);
    assert (n + 1) / 400 == n / 400 + (if year % 400 == 0 then 1 else 0);
  }

  /** The calendar repeats after 400 years; a year has one day more every fourth year, but not every hundredth, unless
      it is a fourth hundredth. */
  lemma GregorianCycle(year: int)
    ensures DaysBefore(year + 400) == DaysBefore(year) + 146097
    ensures DaysBefore(2001) - DaysBefore(2000) == 366 && DaysBefore(1901) - DaysBefore(1900) == 365
    ensures DaysBefore(2025) - DaysBefore(2024) == 366 && DaysBefore(2024) - DaysBefore(2023) == 365
  {
  }

  lemma {:induction false} YearsApart(a: int, b: int)
    requires a < b
    ensures DaysBefore(b) >= DaysBefore(a) + 365 * (b - a) + Leap(a)
    decreases b - a
  {
    hide DaysBefore, Leap;
    LeapBit(b - 1);
    YearLength(b - 1);
    if a < b - 1 {
      YearsApart(a, b - 1);
    }
  }

  lemma LeapBit(year: int)
    ensures 0 <= Leap(year) <= 1
  {
  }

  /** The same day of two different years is at least 365 days apart. */
  lemma SameYearDay(a: Date, b: Date)
    requires a.Valid() && b.Valid() && a.yday == b.yday && a.year < b.year
    ensures DayNumber(a) + 365 <= DayNumber(b)
  {
    hide DaysBefore, Leap;
    LeapBit(a.year);
    YearsApart(a.year, b.year);
  }

  lemma DatesOrdered(a: Date, b: Date)
    requires a.Valid() && b.Valid()
    ensures a.year < b.year ==> DayNumber(a) < DayNumber(b)
    ensures DayNumber(a) == DayNumber(b) <==> a == b
  {
    hide DaysBefore, Leap;
    if a.year < b.year {
      YearsApart(a.year, b.year);
    } else if b.year < a.year {
      YearsApart(b.year, a.year);
    }
  }

  const QUARTERS_PER_DAY := 96

  datatype Clock = Clock(date: Date, quarter: int, offPeak: bool)
  {
    predicate Valid()
    {
      date.Valid() && quarter / QUARTERS_PER_DAY == DayNumber(date)
    }
  }

  // ---------------------------------------------------------------- both resolutions

  /** The same amounts, recorded once per day and once per quarter hour. */
  ghost predicate Paired(days: seq<Event>, quarters: seq<Event>)
  {
    && |days| == |quarters|
    && forall i :: 0 <= i < |days| ==>
         days[i].amount == quarters[i].amount && days[i].period == quarters[i].period / QUARTERS_PER_DAY
  }

  lemma QuarterOfDay(quarter: int, d: int)
    ensures quarter / QUARTERS_PER_DAY == d <==> d * QUARTERS_PER_DAY <= quarter < (d + 1) * QUARTERS_PER_DAY
  {
  }

  lemma PairedInit(days: seq<Event>, quarters: seq<Event>)
    requires Paired(days, quarters) && days != []
    ensures var n := |days| - 1;
            && Paired(days[..n], quarters[..n]) && days[n].amount == quarters[n].amount
            && days[n].period == quarters[n].period / QUARTERS_PER_DAY
            && days == days[..n] + [days[n]] && quarters == quarters[..n] + [quarters[n]]
  {
  }

  /** A day's total is the sum of the totals of its quarter hours. */
  lemma {:induction false} DayIsSumOfQuarters(days: seq<Event>, quarters: seq<Event>, d: int)
    requires Paired(days, quarters)
    ensures TotalIn(days, d) == TotalsSum(quarters, d * QUARTERS_PER_DAY, (d + 1) * QUARTERS_PER_DAY)
  {
    hide TotalIn, TotalsSum;
    var lo, hi := d * QUARTERS_PER_DAY, (d + 1) * QUARTERS_PER_DAY;
    if days == [] {
      NothingHappened(days, d);
      TotalsSumEmpty(lo, hi);
    } else {
      var n := |days| - 1;
      hide Paired;
      PairedInit(days, quarters);
      DayIsSumOfQuarters(days[..n], quarters[..n], d);
      TotalsSumAdd(quarters[..n], quarters[n], lo, hi);
      AddedTotals(days[..n], days[n], d);
      QuarterOfDay(quarters[n].period, d);
    }
  }

  lemma PairedAdd(days: seq<Event>, quarters: seq<Event>, day: int, quarter: int, val: Amount)
    requires Paired(days, quarters) && day == quarter / QUARTERS_PER_DAY
    ensures Paired(days + [Event(day, val)], quarters + [Event(quarter, val)])
  {
  }

  ghost predicate AllPositive(events: seq<Event>)
  {
    forall i :: 0 <= i < |events| ==> events[i].amount.Balanced() && events[i].amount.energy > 0.0
  }

  // ---------------------------------------------------------------- the cached value

  /** The cached value as it is read on a day: an old one reads as zero. */
  function Rolled(lastYday: int, cached: Amount, yday: int): Amount
  {
    if lastYday != yday then ZERO else cached
  }

  /** What the cache holds when energy was last added on date last: everything added since the day of the year last
      changed, on date since. */
  ghost predicate Caches(cached: Amount, events: seq<Event>, since: Date, last: Date)
  {
    && since.Valid() && last.Valid() && since.yday == last.yday && DayNumber(since) <= DayNumber(last)
    && (forall i :: 0 <= i < |events| ==> events[i].period <= DayNumber(last))
    && cached == TotalSince(events, DayNumber(since))
  }

  /** Today has the day of the year of the cache, and since that day of the year came up something was added in another
      year. */
  ghost predicate Stale(events: seq<Event>, since: Date, now: Date)
  {
    since.yday == now.yday && Between(events, DayNumber(since), DayNumber(now))
  }

  /** The cache reads as today's total exactly when it is not stale. */
  lemma ReadsTodayIff(cached: Amount, events: seq<Event>, since: Date, last: Date, now: Date)
    requires Caches(cached, events, since, last) && AllPositive(events)
    requires now.Valid() && DayNumber(last) <= DayNumber(now)
    ensures Rolled(last.yday, cached, now.yday) == TotalIn(events, DayNumber(now)) <==> !Stale(events, since, now)
  {
    hide DayNumber, TotalIn, TotalSince, Between;
    if last.yday == now.yday {
      SinceIsIn(events, DayNumber(since), DayNumber(now));
    } else {
      DatesOrdered(last, now);
      NothingHappened(events, DayNumber(now));
    }
  }

  /** Within a year after its day of the year came up the cache is never stale. */
  lemma NeverStaleWithinAYear(events: seq<Event>, since: Date, now: Date)
    requires since.Valid() && now.Valid() && DayNumber(since) <= DayNumber(now) < DayNumber(since) + 365
    ensures !Stale(events, since, now)
  {
    hide DayNumber;
    DatesOrdered(now, since);
    if since.yday == now.yday && since.year != now.year {
      SameYearDay(since, now);
    }
  }

  /** A stale cache reads more than today's total, and reads correctly again as soon as the day of the year changes. */
  lemma RecoversOnAnotherDay(cached: Amount, events: seq<Event>, since: Date, last: Date, now: Date)
    requires Caches(cached, events, since, last) && AllPositive(events)
    requires now.Valid() && DayNumber(last) <= DayNumber(now)
    ensures Stale(events, since, now) ==>
      Rolled(last.yday, cached, now.yday).energy > TotalIn(events, DayNumber(now)).energy
    ensures last.yday != now.yday ==> Rolled(last.yday, cached, now.yday) == TotalIn(events, DayNumber(now)) == ZERO
  {
    hide DayNumber, TotalIn, TotalSince, Between;
    ReadsTodayIff(cached, events, since, last, now);
    if last.yday == now.yday {
      SinceIsIn(events, DayNumber(since), DayNumber(now));
    }
  }

  function Since(since: Date, now: Date): Date
  {
    if since.yday == now.yday then since else now
  }

  /** When the day of the year of the cache last came up, after additions on these dates. */
  function SinceAll(start: Date, dates: seq<Date>): Date
  {
    if dates == [] then start else Since(SinceAll(start, dates[..|dates| - 1]), dates[|dates| - 1])
  }

  function LastDate(start: Date, dates: seq<Date>): Date
  {
    if dates == [] then start else dates[|dates| - 1]
  }

  /** The dates follow each other with gaps of less than a year. */
  ghost predicate InUse(start: Date, dates: seq<Date>)
  {
    if dates == [] then start.Valid()
    else
      var n := |dates| - 1;
      && InUse(start, dates[..n]) && dates[n].Valid()
      && DayNumber(LastDate(start, dates[..n])) <= DayNumber(dates[n]) < DayNumber(LastDate(start, dates[..n])) + 365
  }

  lemma {:induction false} SinceIsLast(start: Date, dates: seq<Date>)
    requires InUse(start, dates)
    ensures LastDate(start, dates).Valid() && SinceAll(start, dates) == LastDate(start, dates)
  {
    hide DayNumber;
    if dates != [] {
      var n := |dates| - 1;
      var before := LastDate(start, dates[..n]);
      SinceIsLast(start, dates[..n]);
      DatesOrdered(before, dates[n]);
      DatesOrdered(dates[n], before);
      if before.yday == dates[n].yday && before.year < dates[n].year {
        SameYearDay(before, dates[n]);
      }
    }
  }

  /** Over every run of additions, the cache is never stale while the gaps between additions, and up to the reading,
      are below a year. */
  lemma NeverStaleInUse(events: seq<Event>, start: Date, dates: seq<Date>, now: Date)
    requires InUse(start, dates + [now])
    ensures !Stale(events, SinceAll(start, dates), now)
  {
    hide DayNumber, Stale;
    assert (dates + [now])[..|dates|] == dates;
    SinceIsLast(start, dates);
    NeverStaleWithinAYear(events, SinceAll(start, dates), now);
  }

  /** And it happens after a year: what was added on a new year's day still reads as today's on the next. */
  lemma StaleHappens(val: Amount)
    requires val.Balanced() && val.energy > 0.0
    ensures var before, now := Date(2023, 0), Date(2024, 0);
            var events := [Event(DayNumber(before), val)];
            && Caches(val, events, before, before) && Stale(events, before, now)
            && Rolled(before.yday, val, now.yday) == val && TotalIn(events, DayNumber(now)) == ZERO
  {
    var before, now := Date(2023, 0), Date(2024, 0);
    assert DayNumber(before) < DayNumber(now);
    var events := [Event(DayNumber(before), val)];
    assert events[..0] == [] && events[0].period == DayNumber(before);
  }

  /** Reading the clock on a later date starts over if the day of the year differs. */
  lemma CacheRolls(cached: Amount, events: seq<Event>, since: Date, last: Date, now: Date)
    requires Caches(cached, events, since, last) && now.Valid() && DayNumber(last) <= DayNumber(now)
    ensures Caches(Rolled(last.yday, cached, now.yday), events, Since(since, now), now)
  {
    hide DayNumber, TotalSince;
    DatesOrdered(last, now);
    if last.yday != now.yday {
      NothingSince(events, DayNumber(now));
    }
  }

  lemma {:induction false} NothingSince(events: seq<Event>, lo: int)
    requires forall i :: 0 <= i < |events| ==> events[i].period < lo
    ensures TotalSince(events, lo) == ZERO
  {
    if events != [] {
      NothingSince(events[..|events| - 1], lo);
    }
  }

  lemma CacheAdds(cached: Amount, events: seq<Event>, since: Date, now: Date, val: Amount)
    requires Caches(cached, events, since, now)
    ensures Caches(cached.Plus(val), events + [Event(DayNumber(now), val)], since, now)
  {
    hide DayNumber, TotalSince;
    AddedTotals(events, Event(DayNumber(now), val), DayNumber(since));
  }

  lemma CacheReloads(events: seq<Event>, now: Date)
    requires now.Valid() && AllPositive(events) && forall i :: 0 <= i < |events| ==> events[i].period <= DayNumber(now)
    ensures Caches(TotalIn(events, DayNumber(now)), events, now, now)
  {
    hide DayNumber, TotalIn, TotalSince;
    SinceIsIn(events, DayNumber(now), DayNumber(now));
  }

  /** One direction of energy in its two histories, which were last added to at last and last touched no later than
      seen. */
  ghost predicate Ledger(day: History, detail: History, last: Clock, seen: Clock)
    reads day, detail
  {
    && day != detail && day.Valid() && detail.Valid() && last.Valid() && seen.Valid() && last.quarter <= seen.quarter
    && day.clock <= DayNumber(seen.date) && detail.clock <= seen.quarter && day.persisted == detail.persisted
    && Paired(day.added, detail.added) && AllPositive(day.added)
    && forall i :: 0 <= i < |day.added| ==> day.added[i].period <= DayNumber(last.date)
  }

  /** Time goes on. */
  predicate Follows(seen: Clock, now: Clock)
  {
    now.Valid() && seen.quarter <= now.quarter
  }

  lemma LedgerLater(day: History, detail: History, last: Clock, seen: Clock, now: Clock)
    requires Ledger(day, detail, last, seen) && Follows(seen, now)
    ensures day.Valid() && detail.Valid() && day.clock <= DayNumber(now.date) && detail.clock <= now.quarter
    ensures DayNumber(last.date) <= DayNumber(now.date) && day != detail && day.persisted == detail.persisted
    ensures Paired(day.added, detail.added) && AllPositive(day.added)
    ensures Ledger(day, detail, last, now) && Ledger(day, detail, now, now)
  {
    hide DayNumber;
  }

  /** The stored rows of one type, by day and by quarter hour. */
  datatype Rows = Rows(days: map<int, Amount>, quarters: map<int, Amount>)

  const NO_ROWS := Rows(map[], map[])

  /** Everything ever added of one type, by day and by quarter hour. */
  datatype Log = Log(days: seq<Event>, quarters: seq<Event>)

  /** The rows are the totals of the log. */
  ghost predicate Holds(rows: Rows, log: Log, now: Clock)
  {
    && Stores(rows.days, log.days, DayNumber(now.date)) && Stores(rows.quarters, log.quarters, now.quarter)
    && Paired(log.days, log.quarters) && AllPositive(log.days)
    && forall i :: 0 <= i < |log.days| ==> log.days[i].period <= DayNumber(now.date)
  }

  class Counter {
    var lastYday: int
    var energyConsumption: Amount
    var energyExcess: Amount
    const consumptionHistory: History
    const excessHistory: History
    const consumptionDetail: History
    const excessDetail: History
    /** When energy was last added, when the counter was last used at all, and when the day of the year of the
        additions last changed. */
    ghost var last: Clock
    ghost var seen: Clock
    ghost var since: Date

    ghost function Objects(): set<object>
    {
      {consumptionHistory, excessHistory, consumptionDetail, excessDetail}
    }

    ghost predicate Valid()
      reads this, Objects()
    {
      && consumptionHistory != excessHistory && consumptionHistory != excessDetail
      && consumptionDetail != excessHistory && consumptionDetail != excessDetail
      && lastYday == last.date.yday
      && Ledger(consumptionHistory, consumptionDetail, last, seen) && Ledger(excessHistory, excessDetail, last, seen)
      && Caches(energyConsumption, consumptionHistory.added, since, last.date)
      && Caches(energyExcess, excessHistory.added, since, last.date)
    }

    /** A counter over an empty database; a type is persisted when it has a name. The quarter hours keep no past in
        memory. */
    constructor (retention: nat, persisted: bool, excessPersisted: bool, now: Clock)
      requires now.Valid()
      ensures Valid() && fresh(Objects()) && last == seen == now && since == now.date
      ensures consumptionHistory.added == excessHistory.added == []
      ensures consumptionHistory.persisted == consumptionDetail.persisted == persisted
      ensures excessHistory.persisted == excessDetail.persisted == excessPersisted
    {
      hide DayNumber, History.Valid;
      CacheReloads([], now.date);
      lastYday := now.date.yday;
      energyConsumption, energyExcess := ZERO, ZERO;
      consumptionHistory := new History(retention, persisted, DayNumber(now.date));
      excessHistory := new History(retention, excessPersisted, DayNumber(now.date));
      consumptionDetail := new History(0, persisted, now.quarter);
      excessDetail := new History(0, excessPersisted, now.quarter);
      last, seen, since := now, now, now.date;
    }

    /** A counter over the rows that the database holds for its types: the cache starts with today's totals. */
    constructor Load(retention: nat, persisted: bool, excessPersisted: bool, consumptionRows: Rows, excessRows: Rows,
                     ghost consumption: Log, ghost excess: Log, now: Clock)
      requires now.Valid() && Holds(consumptionRows, consumption, now) && Holds(excessRows, excess, now)
      requires (!persisted ==> consumptionRows == NO_ROWS) && (!excessPersisted ==> excessRows == NO_ROWS)
      ensures Valid() && fresh(Objects()) && last == seen == now && since == now.date
      ensures consumptionHistory.added == consumption.days && excessHistory.added == excess.days
      ensures consumptionHistory.persisted == persisted && excessHistory.persisted == excessPersisted
      ensures energyConsumption == TotalIn(consumption.days, DayNumber(now.date))
      ensures energyExcess == TotalIn(excess.days, DayNumber(now.date))
    {
      hide DayNumber, History.Valid, Stores, TotalIn, Caches;
      CacheReloads(consumption.days, now.date);
      CacheReloads(excess.days, now.date);
      lastYday := now.date.yday;
      var today := DayNumber(now.date);
      var c := new History.Load(retention, persisted, consumptionRows.days, consumption.days, today);
      var e := new History.Load(retention, excessPersisted, excessRows.days, excess.days, today);
      var cd := new History.Load(0, persisted, consumptionRows.quarters, consumption.quarters, now.quarter);
      var ed := new History.Load(0, excessPersisted, excessRows.quarters, excess.quarters, now.quarter);
      consumptionHistory, excessHistory, consumptionDetail, excessDetail := c, e, cd, ed;
      var consumed := c.GetTotalForCurrent(today);
      var exported := e.GetTotalForCurrent(today);
      energyConsumption, energyExcess := consumed, exported;
      last, seen, since := now, now, now.date;
    }

    /** The program ends and starts again: the histories are saved and loaded, and the counter takes today's totals. */
    method Restart(now: Clock)
      requires Valid() && Follows(seen, now)
      modifies this, Objects()
      ensures Valid() && last == seen == now && since == now.date
      ensures consumptionHistory.added == if consumptionHistory.persisted then old(consumptionHistory.added) else []
      ensures excessHistory.added == if excessHistory.persisted then old(excessHistory.added) else []
    {
      hide Ledger, Caches, DayNumber, TotalIn;
      lastYday := now.date.yday;
      ghost var from, to := last, seen;
      last, seen, since := now, now, now.date;
      energyConsumption := Reload(consumptionHistory, consumptionDetail, from, to, now);
      energyExcess := Reload(excessHistory, excessDetail, from, to, now);
    }

    static method Reload(day: History, detail: History, ghost last: Clock, ghost seen: Clock, now: Clock)
      returns (r: Amount)
      requires Ledger(day, detail, last, seen) && Follows(seen, now)
      modifies day, detail
      ensures Ledger(day, detail, now, now) && Caches(r, day.added, now.date, now.date)
      ensures day.added == if day.persisted then old(day.added) else []
    {
      hide DayNumber, TotalIn, History.Valid, Caches;
      LedgerLater(day, detail, last, seen, now);
      day.Restart(DayNumber(now.date));
      detail.Restart(now.quarter);
      CacheReloads(day.added, now.date);
      r := day.GetTotalForCurrent(DayNumber(now.date));
    }

    static method Record(val: real, cached: Amount, day: History, detail: History, now: Clock, ghost since: Date)
      returns (r: Amount)
      requires Ledger(day, detail, now, now) && Caches(cached, day.added, since, now.date) && val > 0.0
      modifies day, detail
      ensures Ledger(day, detail, now, now) && Caches(r, day.added, since, now.date)
      ensures day.added == old(day.added) + [Event(DayNumber(now.date), FromValue(val, now.offPeak))]
      ensures detail.added == old(detail.added) + [Event(now.quarter, FromValue(val, now.offPeak))]
    {
      hide DayNumber, TotalSince, Caches, History.Valid;
      var d := DayNumber(now.date);
      LedgerLater(day, detail, now, now, now);
      CacheAdds(cached, day.added, since, now.date, FromValue(val, now.offPeak));
      PairedAdd(day.added, detail.added, d, now.quarter, FromValue(val, now.offPeak));
      r := cached.Plus(FromValue(val, now.offPeak));
      day.Add(FromValue(val, now.offPeak), d);
      detail.Add(FromValue(val, now.offPeak), now.quarter);
    }

    method AddEnergy(consumption: real, excess: real, now: Clock)
      requires Valid() && Follows(seen, now)
      modifies this, Objects()
      ensures Valid() && last == seen == now && since == Since(old(since), now.date)
      ensures consumptionHistory.added == old(consumptionHistory.added) + Entry(consumption, now)
      ensures excessHistory.added == old(excessHistory.added) + Entry(excess, now)
      ensures consumptionDetail.added == old(consumptionDetail.added) + DetailEntry(consumption, now)
      ensures excessDetail.added == old(excessDetail.added) + DetailEntry(excess, now)
    {
      hide Ledger, Rolled, DayNumber, Caches;
      LedgerLater(consumptionHistory, consumptionDetail, last, seen, now);
      LedgerLater(excessHistory, excessDetail, last, seen, now);
      CacheRolls(energyConsumption, consumptionHistory.added, since, last.date, now.date);
      CacheRolls(energyExcess, excessHistory.added, since, last.date, now.date);
      Roll(now.date.yday);
      last, seen, since := now, now, Since(since, now.date);
      if consumption > 0.0 {
        energyConsumption := Record(consumption, energyConsumption, consumptionHistory, consumptionDetail, now, since);
      }
      if excess > 0.0 {
        energyExcess := Record(excess, energyExcess, excessHistory, excessDetail, now, since);
      }
    }

    method Roll(yday: int)
      modifies this`lastYday, this`energyConsumption, this`energyExcess
      ensures lastYday == yday
      ensures energyConsumption == Rolled(old(lastYday), old(energyConsumption), yday)
      ensures energyExcess == Rolled(old(lastYday), old(energyExcess), yday)
    {
      if lastYday != yday {
        lastYday := yday;
        energyConsumption := ZERO;
        energyExcess := ZERO;
      }
    }

    /** The cached value is the sum of everything added today if and only if nothing was added in another year since
        its day of the year came up. */
    method GetEnergyConsumption(now: Clock) returns (r: Amount)
      requires Valid() && Follows(seen, now)
      ensures r == TotalIn(consumptionHistory.added, DayNumber(now.date))
         <==> !Stale(consumptionHistory.added, since, now.date)
      ensures Stale(consumptionHistory.added, since, now.date) ==>
        r == TotalSince(consumptionHistory.added, DayNumber(since))
      ensures r.Balanced()
    {
      hide DayNumber, TotalIn, TotalSince, Between;
      LedgerLater(consumptionHistory, consumptionDetail, last, seen, now);
      ReadsTodayIff(energyConsumption, consumptionHistory.added, since, last.date, now.date);
      BalancedTotals(consumptionHistory.added, DayNumber(since));
      if lastYday != now.date.yday {
        return ZERO;
      }
      return energyConsumption;
    }

    method GetEnergyExcess(now: Clock) returns (r: Amount)
      requires Valid() && Follows(seen, now)
      ensures r == TotalIn(excessHistory.added, DayNumber(now.date))
         <==> !Stale(excessHistory.added, since, now.date)
      ensures Stale(excessHistory.added, since, now.date) ==>
        r == TotalSince(excessHistory.added, DayNumber(since))
      ensures r.Balanced()
    {
      hide DayNumber, TotalIn, TotalSince, Between;
      LedgerLater(excessHistory, excessDetail, last, seen, now);
      ReadsTodayIff(energyExcess, excessHistory.added, since, last.date, now.date);
      BalancedTotals(excessHistory.added, DayNumber(since));
      if lastYday != now.date.yday {
        return ZERO;
      }
      return energyExcess;
    }

    /** The energy of the last ndays and today, as long as ndays is within the retention. */
    method GetTotalConsumptionForLast(ndays: int, now: Clock) returns (r: real)
      requires Valid() && Follows(seen, now)
      ensures ndays <= consumptionHistory.retention ==>
        r == TotalSince(consumptionHistory.added, DayNumber(now.date) - ndays).energy
      ensures r == RangeSum(consumptionHistory.history, DayNumber(now.date) - ndays, DayNumber(now.date) + 1).energy
    {
      hide DayNumber, Caches, History.Valid;
      LedgerLater(consumptionHistory, consumptionDetail, last, seen, now);
      var total := consumptionHistory.GetTotalForLast(ndays, DayNumber(now.date));
      r := total.energy;
    }

    /** Afterwards the stored day rows are the sums of the stored quarter-hour rows, for both directions. */
    method SyncHistory(now: Clock)
      requires Valid() && Follows(seen, now)
      modifies this, Objects()
      ensures Valid() && seen == now && last == old(last) && since == old(since)
      ensures consumptionHistory.added == old(consumptionHistory.added)
      ensures excessHistory.added == old(excessHistory.added)
      ensures consumptionHistory.persisted ==> RowsAddUp(consumptionHistory.store, consumptionDetail.store)
      ensures excessHistory.persisted ==> RowsAddUp(excessHistory.store, excessDetail.store)
    {
      hide Ledger, Caches, RowsAddUp;
      LedgerLater(consumptionHistory, consumptionDetail, last, seen, now);
      LedgerLater(excessHistory, excessDetail, last, seen, now);
      seen := now;
      SyncBoth(consumptionHistory, consumptionDetail, last, now);
      SyncBoth(excessHistory, excessDetail, last, now);
    }

    static method SyncBoth(day: History, detail: History, ghost last: Clock, now: Clock)
      requires Ledger(day, detail, last, now)
      modifies day, detail
      ensures Ledger(day, detail, last, now) && day.added == old(day.added)
      ensures day.persisted ==> RowsAddUp(day.store, detail.store)
    {
      hide TotalIn, DayNumber, RangeSum;
      day.Sync(DayNumber(now.date));
      detail.Sync(now.quarter);
      if day.persisted {
        forall d
          ensures Row(day.store, d) == RangeSum(detail.store, d * QUARTERS_PER_DAY, (d + 1) * QUARTERS_PER_DAY)
        {
          DayIsSumOfQuarters(day.added, detail.added, d);
          EntriesAreTotals(detail.store, detail.added, d * QUARTERS_PER_DAY, (d + 1) * QUARTERS_PER_DAY);
        }
      }
    }
  }

  /** Every stored day is the sum of its stored quarter hours. */
  ghost predicate RowsAddUp(days: map<int, Amount>, quarters: map<int, Amount>)
  {
    forall d :: Row(days, d) == RangeSum(quarters, d * QUARTERS_PER_DAY, (d + 1) * QUARTERS_PER_DAY)
  }

  function Row(store: map<int, Amount>, p: int): Amount
  {
    if p in store then store[p] else ZERO
  }

  function DetailEntry(val: real, now: Clock): seq<Event>
  {
    if val > 0.0 then [Event(now.quarter, FromValue(val, now.offPeak))] else []
  }

  /** What an addition counts as: the whole value, if positive, for the day and the quarter hour of now, at the rate
      of now, and nothing elsewhere. */
  lemma EntryCounts(val: real, now: Clock, p: int)
    ensures var amount := Amount(val, if now.offPeak then 0.0 else val, if now.offPeak then val else 0.0);
            && TotalIn(Entry(val, now), p) == (if val > 0.0 && p == DayNumber(now.date) then amount else ZERO)
            && TotalIn(DetailEntry(val, now), p) == (if val > 0.0 && p == now.quarter then amount else ZERO)
  {
    hide DayNumber;
    AddedTotals([], Event(DayNumber(now.date), FromValue(val, now.offPeak)), p);
    AddedTotals([], Event(DayNumber(now.date), FromValue(val, now.offPeak)), DayNumber(now.date));
    AddedTotals([], Event(now.quarter, FromValue(val, now.offPeak)), p);
    assert [] + [Event(DayNumber(now.date), FromValue(val, now.offPeak))]
        == [Event(DayNumber(now.date), FromValue(val, now.offPeak))];
    assert [] + [Event(now.quarter, FromValue(val, now.offPeak))] == [Event(now.quarter, FromValue(val, now.offPeak))];
  }

  /** What AddEnergy records: nothing unless the value is positive. */
  function Entry(val: real, now: Clock): seq<Event>
  {
    if val > 0.0 then [Event(DayNumber(now.date), FromValue(val, now.offPeak))] else []
  }
}
