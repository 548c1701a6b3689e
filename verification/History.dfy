/** Energy amounts (src/energy/Amount.cpp) and the purged, persisted history of include/stat/History.hpp with the
    store of src/energy/HistoryDay.cpp and src/energy/HistoryQuarterHour.cpp. Periods are numbered days or quarter
    hours. */
module Histories {
  import opened Series

  datatype Amount = Amount(energy: real, peak: real, offpeak: real)
  {
    function Plus(r: Amount): Amount
    {
      Amount(energy + r.energy, peak + r.peak, offpeak + r.offpeak)
    }

    predicate Balanced()
    {
      energy == peak + offpeak
    }
  }

  const ZERO := Amount(0.0, 0.0, 0.0)

  /** A plain value counts as off-peak or peak energy, depending on the grid's current rate. */
  function FromValue(val: real, offPeak: bool): (a: Amount)
    ensures a.Balanced() && a.energy == val
    ensures if offPeak then a.peak == 0.0 else a.offpeak == 0.0
  {
    if offPeak then Amount(val, 0.0, val) else Amount(val, val, 0.0)
  }

  // ---------------------------------------------------------------- what was added

  datatype Event = Event(period: int, amount: Amount)

  /** Sum of everything added in one period. */
  function TotalIn(events: seq<Event>, p: int): Amount
  {
    if events == [] then ZERO
    else
      var e, before := events[|events| - 1], TotalIn(events[..|events| - 1], p);
      if e.period == p then before.Plus(e.amount) else before
  }

  /** Sum of everything added in the periods from lo on. */
  function TotalSince(events: seq<Event>, lo: int): Amount
  {
    if events == [] then ZERO
    else
      var e, before := events[|events| - 1], TotalSince(events[..|events| - 1], lo);
      if e.period >= lo then before.Plus(e.amount) else before
  }

  lemma {:induction false} AddedTotals(events: seq<Event>, e: Event, p: int)
    ensures TotalIn(events + [e], p) == if e.period == p then TotalIn(events, p).Plus(e.amount) else TotalIn(events, p)
    ensures TotalSince(events + [e], p)
         == if e.period >= p then TotalSince(events, p).Plus(e.amount) else TotalSince(events, p)
  {
    assert (events + [e])[..|events|] == events;
  }

  /** Something was added in a period from lo on, before d. */
  ghost predicate Between(events: seq<Event>, lo: int, d: int)
  {
    exists i :: 0 <= i < |events| && lo <= events[i].period < d
  }

  /** Positive amounts, none after period d, add up since lo to what was added in d exactly when nothing was added
      from lo on before d. */
  lemma {:induction false} SinceIsIn(events: seq<Event>, lo: int, d: int)
    requires lo <= d && forall i :: 0 <= i < |events| ==> events[i].period <= d && events[i].amount.energy > 0.0
    ensures TotalSince(events, lo).energy >= TotalIn(events, d).energy
    ensures TotalSince(events, lo) == TotalIn(events, d) <==> !Between(events, lo, d)
    ensures Between(events, lo, d) ==> TotalSince(events, lo).energy > TotalIn(events, d).energy
  {
    if events != [] {
      var init, e := events[..|events| - 1], events[|events| - 1];
      SinceIsIn(init, lo, d);
      assert events == init + [e];
      BetweenSnoc(init, e, lo, d);
    }
  }

  lemma BetweenSnoc(init: seq<Event>, e: Event, lo: int, d: int)
    ensures Between(init + [e], lo, d) <==> Between(init, lo, d) || lo <= e.period < d
  {
    var events := init + [e];
    assert events[|init|] == e;
    if i :| 0 <= i < |init| && lo <= init[i].period < d {
      assert events[i] == init[i];
    }
  }

  predicate Happened(events: seq<Event>, p: int)
  {
    exists i :: 0 <= i < |events| && events[i].period == p
  }

  lemma {:induction false} NothingHappened(events: seq<Event>, p: int)
    requires !Happened(events, p)
    ensures TotalIn(events, p) == ZERO
  {
    if events != [] {
      var init := events[..|events| - 1];
      assert events == init + [events[|events| - 1]];
      HappenedAdd(init, events[|events| - 1], p);
      NothingHappened(init, p);
    }
  }

  lemma {:induction false} BalancedTotals(events: seq<Event>, p: int)
    requires forall i :: 0 <= i < |events| ==> events[i].amount.Balanced()
    ensures TotalIn(events, p).Balanced() && TotalSince(events, p).Balanced()
  {
    if events != [] {
      BalancedTotals(events[..|events| - 1], p);
    }
  }

  /** Sum of the entries of a map over the periods lo .. hi - 1. */
  function RangeSum(m: map<int, Amount>, lo: int, hi: int): Amount
    decreases hi - lo
  {
    if hi <= lo then ZERO
    else RangeSum(m, lo, hi - 1).Plus(if hi - 1 in m then m[hi - 1] else ZERO)
  }

  lemma {:induction false} RangeSumGap(m: map<int, Amount>, lo: int, mid: int, hi: int)
    requires mid <= hi && (lo <= mid || forall p :: lo <= p < hi ==> p !in m)
    requires forall p :: mid <= p < hi ==> p !in m
    ensures RangeSum(m, lo, hi) == RangeSum(m, lo, mid)
    decreases hi - mid
  {
    if mid < hi {
      RangeSumGap(m, lo, mid, hi - 1);
    }
  }

  /** Sum of the per-period totals over lo .. hi - 1. */
  function TotalsSum(events: seq<Event>, lo: int, hi: int): Amount
    decreases hi - lo
  {
    if hi <= lo then ZERO else TotalsSum(events, lo, hi - 1).Plus(TotalIn(events, hi - 1))
  }

  lemma {:induction false} TotalsSumEmpty(lo: int, hi: int)
    ensures TotalsSum([], lo, hi) == ZERO
    decreases hi - lo
  {
    if lo < hi {
      TotalsSumEmpty(lo, hi - 1);
    }
  }

  lemma {:induction false} TotalsSumAdd(events: seq<Event>, e: Event, lo: int, hi: int)
    ensures TotalsSum(events + [e], lo, hi)
         == if lo <= e.period < hi then TotalsSum(events, lo, hi).Plus(e.amount) else TotalsSum(events, lo, hi)
    decreases hi - lo
  {
    hide TotalIn;
    if lo < hi {
      TotalsSumAdd(events, e, lo, hi - 1);
      AddedTotals(events, e, hi - 1);
    }
  }

  /** Adding up per period or per event is the same. */
  lemma {:induction false} TotalsSumIsTotalSince(events: seq<Event>, lo: int, hi: int)
    requires forall i :: 0 <= i < |events| ==> events[i].period < hi
    ensures TotalsSum(events, lo, hi) == TotalSince(events, lo)
  {
    if events == [] {
      TotalsSumEmpty(lo, hi);
    } else {
      var init, e := events[..|events| - 1], events[|events| - 1];
      TotalsSumIsTotalSince(init, lo, hi);
      TotalsSumAdd(init, e, lo, hi);
      AddedTotals(init, e, lo);
      assert events == init + [e];
    }
  }

  lemma {:induction false} EntriesAreTotals(m: map<int, Amount>, events: seq<Event>, lo: int, hi: int)
    requires forall p :: lo <= p < hi ==> (if p in m then m[p] else ZERO) == TotalIn(events, p)
    ensures RangeSum(m, lo, hi) == TotalsSum(events, lo, hi)
    decreases hi - lo
  {
    if lo < hi {
      EntriesAreTotals(m, events, lo, hi - 1);
      assert (if hi - 1 in m then m[hi - 1] else ZERO) == TotalIn(events, hi - 1);
    }
  }

  // ---------------------------------------------------------------- the history

  /** The entries that survive a purge. */
  function Surviving(m: map<int, Amount>, cutoff: int): map<int, Amount>
  {
    map p | p in m && p >= cutoff :: m[p]
  }

  /** The store after the entries before cutoff were written to it. */
  function Stored(store: map<int, Amount>, m: map<int, Amount>, cutoff: int): map<int, Amount>
  {
    store + map p | p in m && p < cutoff :: m[p]
  }

  /** The store after the entries of some periods were written to it. */
  function Written(store: map<int, Amount>, m: map<int, Amount>, periods: set<int>): map<int, Amount>
  {
    store + map p | p in m && p in periods :: m[p]
  }

  lemma WrittenNone(store: map<int, Amount>, m: map<int, Amount>)
    ensures Written(store, m, {}) == store
    ensures m - {} == m
  {
    SameMap(Written(store, m, {}), store);
    SameMap(m - {}, m);
  }

  lemma WrittenNext(store: map<int, Amount>, m: map<int, Amount>, periods: set<int>, it: int)
    requires it in m && it !in periods
    ensures Written(store, m, periods + {it}) == Written(store, m, periods)[it := m[it]]
    ensures (m - periods) - {it} == m - (periods + {it})
  {
    SameMap(Written(store, m, periods + {it}), Written(store, m, periods)[it := m[it]]);
    SameMap((m - periods) - {it}, m - (periods + {it}));
  }

  lemma WrittenAll(store: map<int, Amount>, m: map<int, Amount>, periods: set<int>)
    requires forall p :: p in m ==> p in periods
    ensures Written(store, m, periods) == store + m
  {
    var w, all := Written(store, m, periods), store + m;
    assert forall k :: At(all, k) == if k in m then Some(m[k]) else At(store, k);
    assert forall k :: At(w, k) == if k in m then Some(m[k]) else At(store, k);
    SameMap(w, all);
  }

  lemma PurgedAll(m: map<int, Amount>, store: map<int, Amount>, gone: set<int>, cutoff: int)
    requires forall p :: p in gone <==> p in m && p < cutoff
    ensures m - gone == Surviving(m, cutoff)
    ensures Written(store, m, gone) == Stored(store, m, cutoff)
  {
    SameMap(m - gone, Surviving(m, cutoff));
    SameMap(Written(store, m, gone), Stored(store, m, cutoff));
  }

  function Increased(m: map<int, Amount>, now: int, val: Amount): map<int, Amount>
  {
    m[now := if now in m then m[now].Plus(val) else val]
  }

  /** Where a period's total is found: in memory, else in the store. */
  function Lookup(m: map<int, Amount>, store: map<int, Amount>, p: int): Amount
  {
    if p in m then m[p] else if p in store then store[p] else ZERO
  }

  /** Every entry is the total of its period; what left memory is older than the retention and, if the history is
      persisted, was written to the store. */
  ghost predicate Faithful(m: map<int, Amount>, store: map<int, Amount>, added: seq<Event>, clock: int, retention: nat,
                           persisted: bool)
  {
    && (forall i :: 0 <= i < |added| ==> added[i].period <= clock)
    && (forall p :: p in m ==> p <= clock && m[p] == TotalIn(added, p))
    && (forall p :: p !in m && Happened(added, p) ==> p < clock - retention && (persisted ==> p in store))
    && (forall p :: p !in m && p in store ==> p < clock - retention && store[p] == TotalIn(added, p))
    && (!persisted ==> store == map[])
  }

  lemma FaithfulLater(m: map<int, Amount>, store: map<int, Amount>, added: seq<Event>, clock: int, later: int,
                      retention: nat, persisted: bool)
    requires Faithful(m, store, added, clock, retention, persisted) && clock <= later
    ensures Faithful(m, store, added, later, retention, persisted)
  {
  }

  lemma FaithfulAdd(m: map<int, Amount>, store: map<int, Amount>, added: seq<Event>, now: int, retention: nat,
                    persisted: bool, val: Amount)
    requires Faithful(m, store, added, now, retention, persisted)
    ensures Faithful(Increased(m, now, val), store, added + [Event(now, val)], now, retention, persisted)
  {
    hide TotalIn, Happened;
    var e := Event(now, val);
    if now !in m {
      NothingHappened(added, now);
    }
    forall p
      ensures TotalIn(added + [e], p) == if p == now then TotalIn(added, p).Plus(val) else TotalIn(added, p)
      ensures Happened(added + [e], p) <==> Happened(added, p) || p == now
    {
      AddedTotals(added, e, p);
      HappenedAdd(added, e, p);
    }
    AddedPeriods(added, e);
  }

  lemma AddedPeriods(added: seq<Event>, e: Event)
    requires forall i :: 0 <= i < |added| ==> added[i].period <= e.period
    ensures forall i :: 0 <= i < |added + [e]| ==> (added + [e])[i].period <= e.period
  {
  }

  lemma HappenedAdd(added: seq<Event>, e: Event, p: int)
    ensures Happened(added + [e], p) <==> Happened(added, p) || p == e.period
  {
    if Happened(added, p) {
      var i :| 0 <= i < |added| && added[i].period == p;
      assert (added + [e])[i].period == p;
    }
    assert (added + [e])[|added|] == e;
  }

  lemma FaithfulPurge(m: map<int, Amount>, store: map<int, Amount>, added: seq<Event>, now: int, retention: nat,
                      persisted: bool)
    requires Faithful(m, store, added, now, retention, persisted)
    ensures var cutoff := now - retention;
            Faithful(Surviving(m, cutoff), if persisted then Stored(store, m, cutoff) else store, added, now, retention,
                     persisted)
  {
    hide TotalIn, Happened;
  }

  lemma FaithfulSave(m: map<int, Amount>, store: map<int, Amount>, added: seq<Event>, now: int, retention: nat)
    requires Faithful(m, store, added, now, retention, true)
    ensures Faithful(m, store + m, added, now, retention, true)
    ensures forall p :: (if p in store + m then (store + m)[p] else ZERO) == TotalIn(added, p)
  {
    forall p
      ensures (if p in store + m then (store + m)[p] else ZERO) == TotalIn(added, p)
    {
      if p !in store + m {
        NothingHappened(added, p);
      }
    }
    hide TotalIn, Happened;
  }

  /** Restarting: everything is saved, and the entries of the retention are loaded again. */
  lemma FaithfulRestart(m: map<int, Amount>, store: map<int, Amount>, added: seq<Event>, now: int, retention: nat)
    requires Faithful(m, store, added, now, retention, true)
    ensures Faithful(Surviving(store + m, now - retention), store + m, added, now, retention, true)
  {
    hide TotalIn, Happened;
  }

  /** The store knows the total of every period in which something was added, and nothing else. */
  ghost predicate Stores(store: map<int, Amount>, added: seq<Event>, clock: int)
  {
    && (forall i :: 0 <= i < |added| ==> added[i].period <= clock)
    && (forall p :: Happened(added, p) ==> p in store)
    && (forall p :: p in store ==> p <= clock && store[p] == TotalIn(added, p))
  }

  lemma FaithfulLoad(store: map<int, Amount>, added: seq<Event>, now: int, retention: nat, persisted: bool)
    requires Stores(store, added, now) && (!persisted ==> store == map[])
    ensures Faithful(Surviving(store, now - retention), store, added, now, retention, persisted)
  {
    hide TotalIn, Happened;
  }

  /** Without a type, restarting loads nothing. */
  lemma FaithfulForgets(m: map<int, Amount>, store: map<int, Amount>, added: seq<Event>, now: int, retention: nat)
    requires Faithful(m, store, added, now, retention, false)
    ensures Faithful(Surviving(store, now - retention), store, [], now, retention, false)
  {
  }

  lemma SurvivingIs(m: map<int, Amount>, cutoff: int)
    ensures Surviving(m, cutoff) == map p | p in m && p >= cutoff :: m[p]
  {
  }

  lemma LookupIsTotal(m: map<int, Amount>, store: map<int, Amount>, added: seq<Event>, now: int, retention: nat, p: int)
    requires Faithful(m, store, added, now, retention, true)
    ensures Lookup(m, store, p) == TotalIn(added, p)
  {
    if p !in m && p !in store {
      NothingHappened(added, p);
    }
  }

  lemma RecentIsTotal(m: map<int, Amount>, store: map<int, Amount>, added: seq<Event>, now: int, retention: nat,
                      persisted: bool, p: int)
    requires Faithful(m, store, added, now, retention, persisted) && p >= now - retention
    ensures (if p in m then m[p] else ZERO) == TotalIn(added, p)
  {
    if p !in m {
      NothingHappened(added, p);
    }
  }

  /** Within the retention, the entries in memory add up to everything added since. */
  lemma MemoryTotal(m: map<int, Amount>, store: map<int, Amount>, added: seq<Event>, now: int, retention: nat,
                    persisted: bool, nperiods: int)
    requires Faithful(m, store, added, now, retention, persisted) && nperiods <= retention
    ensures RangeSum(m, now - nperiods, now + 1) == TotalSince(added, now - nperiods)
  {
    var lo := now - nperiods;
    forall p | lo <= p < now + 1
      ensures (if p in m then m[p] else ZERO) == TotalIn(added, p)
    {
      RecentIsTotal(m, store, added, now, retention, persisted, p);
    }
    EntriesAreTotals(m, added, lo, now + 1);
    TotalsSumIsTotalSince(added, lo, now + 1);
  }

  class History {
    const retention: nat
    /** Whether the history has a type, without which nothing is stored. */
    const persisted: bool
    var history: map<int, Amount>
    /** The rows of the database table for this history. */
    var store: map<int, Amount>
    ghost var added: seq<Event>
    ghost var clock: int

    ghost predicate Valid()
      reads this
    {
      Faithful(history, store, added, clock, retention, persisted)
    }

    constructor (retention: nat, persisted: bool, now: int)
      ensures Valid() && added == [] && clock == now && store == map[]
      ensures this.retention == retention && this.persisted == persisted
    {
      this.retention, this.persisted := retention, persisted;
      history, store, added, clock := map[], map[], [], now;
    }

    /** Loads the entries of the retention from the database; without a type there is nothing to load. */
    constructor Load(retention: nat, persisted: bool, store: map<int, Amount>, ghost added: seq<Event>, now: int)
      requires Stores(store, added, now) && (!persisted ==> store == map[])
      ensures Valid() && this.added == added && clock == now && this.store == store
      ensures this.retention == retention && this.persisted == persisted
    {
      hide Faithful, TotalIn, Surviving, Stores;
      FaithfulLoad(store, added, now, retention, persisted);
      SurvivingIs(store, now - retention);
      this.retention, this.persisted, this.store := retention, persisted, store;
      history := map p | p in store && p >= now - retention :: store[p];
      this.added, clock := added, now;
    }

    method StoreEntry(period: int, value: Amount)
      modifies this`store
      ensures store == if persisted then old(store)[period := value] else old(store)
    {
      if !persisted {
        return;
      }
      store := store[period := value];
    }

    method Purge(now: int)
      modifies this`history, this`store
      ensures history == Surviving(old(history), now - retention)
      ensures store == if persisted then Stored(old(store), old(history), now - retention) else old(store)
    {
      ghost var before, stored := history, store;
      ghost var gone: set<int> := {};
      WrittenNone(stored, before);
      var periodAgo := now - retention;
      var rest := history.Keys;
      while rest != {}
        invariant forall p :: p in rest ==> p in before
        invariant forall p :: p in gone <==> p in before && p !in rest && p < periodAgo
        invariant history == before - gone
        invariant store == if persisted then Written(stored, before, gone) else stored
        decreases rest
      {
        assert (forall k :: k !in rest) ==> rest == {};
        var it :| it in rest;
        if it < periodAgo {
          WrittenNext(stored, before, gone, it);
          StoreEntry(it, history[it]);
          history := history - {it};
          gone := gone + {it};
        }
        rest := rest - {it};
      }
      assert forall p :: p !in rest;
      PurgedAll(before, stored, gone, periodAgo);
    }

    method Add(val: Amount, now: int)
      requires Valid() && clock <= now
      modifies this
      ensures Valid() && clock == now && added == old(added) + [Event(now, val)]
    {
      hide Faithful, TotalIn;
      FaithfulLater(history, store, added, clock, now, retention, persisted);
      FaithfulAdd(history, store, added, now, retention, persisted, val);
      if now !in history {
        history := history[now := val];
      } else {
        history := history[now := history[now].Plus(val)];
      }
      added := added + [Event(now, val)];
      clock := now;
      FaithfulPurge(history, store, added, now, retention, persisted);
      Purge(now);
    }

    /** The entries of the last nperiods and the current one; complete as long as nperiods is within the retention. */
    method GetTotalForLast(nperiods: int, now: int) returns (sum: Amount)
      requires Valid() && clock <= now
      ensures sum == RangeSum(history, now - nperiods, now + 1)
      ensures nperiods <= retention ==> sum == TotalSince(added, now - nperiods)
    {
      hide Faithful, TotalIn, TotalSince, RangeSum;
      FaithfulLater(history, store, added, clock, now, retention, persisted);
      if nperiods <= retention {
        MemoryTotal(history, store, added, now, retention, persisted, nperiods);
      }
      FaithfulKeys(history, store, added, clock, retention, persisted);
      var startDate := now - nperiods;
      sum := ZERO;
      var rest := history.Keys;
      ghost var cursor := startDate;
      RangeSumNil(history, startDate);
      while rest != {}
        invariant rest <= history.Keys
        invariant startDate <= cursor
        invariant forall p :: p in history ==> p in rest || p < cursor || p < startDate
        invariant forall p :: p in rest ==> p >= cursor || p < startDate
        invariant cursor > startDate ==> cursor <= now + 1
        invariant sum == RangeSum(history, startDate, cursor)
        decreases rest
      {
        ghost var first := Smallest(rest);
        var it :| it in rest && forall j :: j in rest ==> it <= j;
        rest := rest - {it};
        if it < startDate {
          continue;
        }
        RangeSumNext(history, startDate, cursor, it);
        cursor := it + 1;
        sum := sum.Plus(history[it]);
      }
      RangeSumRest(history, startDate, cursor, now + 1);
    }

    method GetTotalForCurrent(now: int) returns (r: Amount)
      requires Valid() && clock <= now
      ensures r == TotalIn(added, now)
    {
      RecentIsTotal(history, store, added, now, retention, persisted, now);
      if now !in history {
        return ZERO;
      }
      return history[now];
    }

    /** After a synchronisation the store alone knows every period's total. */
    method Sync(now: int)
      requires Valid() && clock <= now
      modifies this
      ensures Valid() && clock == now && added == old(added)
      ensures persisted ==> forall p :: (if p in store then store[p] else ZERO) == TotalIn(added, p)
    {
      hide Faithful, TotalIn;
      FaithfulLater(history, store, added, clock, now, retention, persisted);
      FaithfulPurge(history, store, added, now, retention, persisted);
      clock := now;
      Purge(now);
      if persisted {
        FaithfulSave(history, store, added, now, retention);
      }
      Save();
    }

    method Save()
      modifies this`store
      ensures store == if persisted then old(store) + history else old(store)
    {
      hide Written;
      ghost var stored := store;
      ghost var done: set<int> := {};
      WrittenNone(stored, history);
      var rest := history.Keys;
      while rest != {}
        invariant forall p :: p in rest ==> p in history
        invariant forall p :: p in done <==> p in history && p !in rest
        invariant store == if persisted then Written(stored, history, done) else stored
        decreases rest
      {
        assert (forall k :: k !in rest) ==> rest == {};
        var it :| it in rest;
        WrittenNext(stored, history, done, it);
        StoreEntry(it, history[it]);
        done := done + {it};
        rest := rest - {it};
      }
      assert forall p :: p !in rest;
      WrittenAll(stored, history, done);
    }

    /** Destruction, which saves, followed by construction, which loads the entries of the retention; without a type
        nothing is saved, and everything is forgotten. */
    method Restart(now: int)
      requires Valid() && clock <= now
      modifies this
      ensures Valid() && clock == now && added == if persisted then old(added) else []
    {
      hide Faithful, TotalIn, Surviving;
      FaithfulLater(history, store, added, clock, now, retention, persisted);
      if persisted {
        FaithfulRestart(history, store, added, now, retention);
      } else {
        FaithfulForgets(history, store, added, now, retention);
      }
      SurvivingIs(if persisted then store + history else store, now - retention);
      Save();
      clock := now;
      history := map p | p in store && p >= now - retention :: store[p];
      if !persisted {
        added := [];
      }
    }

    /** Conservation: at any time a period's total is found in memory or else in the store. */
    method Find(p: int) returns (r: Amount)
      requires Valid() && persisted
      ensures r == TotalIn(added, p)
    {
      LookupIsTotal(history, store, added, clock, retention, p);
      r := Lookup(history, store, p);
    }
  }

  lemma FaithfulKeys(m: map<int, Amount>, store: map<int, Amount>, added: seq<Event>, clock: int, retention: nat,
                     persisted: bool)
    requires Faithful(m, store, added, clock, retention, persisted)
    ensures forall p :: p in m ==> p <= clock
  {
  }

  lemma RangeSumNil(m: map<int, Amount>, lo: int)
    ensures RangeSum(m, lo, lo) == ZERO
  {
  }

  /** Going on to the next entry of the map: nothing lies between. */
  lemma RangeSumNext(m: map<int, Amount>, lo: int, cursor: int, it: int)
    requires lo <= cursor <= it && it in m && forall p :: cursor <= p < it ==> p !in m
    ensures RangeSum(m, lo, it + 1) == RangeSum(m, lo, cursor).Plus(m[it])
  {
    RangeSumGap(m, lo, cursor, it);
  }

  lemma RangeSumRest(m: map<int, Amount>, lo: int, cursor: int, hi: int)
    requires lo <= cursor && (cursor > lo ==> cursor <= hi) && forall p :: p in m && p >= lo ==> p < cursor
    ensures RangeSum(m, lo, cursor) == RangeSum(m, lo, hi)
  {
    if cursor <= hi {
      RangeSumGap(m, lo, cursor, hi);
    }
  }

  lemma TwoTotals(val: Amount, period: nat, more: Amount)
    ensures TotalSince([Event(0, val), Event(period, more)], 0) == val.Plus(more)
  {
    AddedTotals([], Event(0, val), 0);
    AddedTotals([Event(0, val)], Event(period, more), 0);
    assert [] + [Event(0, val)] == [Event(0, val)];
    assert [Event(0, val)] + [Event(period, more)] == [Event(0, val), Event(period, more)];
  }

  lemma OnlyTheLaterSurvives(retention: nat, nperiods: int, val: Amount, more: Amount)
    requires nperiods > retention
    ensures var later := Surviving(Increased(Increased(map[], 0, val), nperiods, more), nperiods - retention);
            nperiods in later && later[nperiods] == more && forall p :: 0 <= p < nperiods ==> p !in later
  {
  }

  /** Looking further back than the retention is wrong for some history: the condition nperiods <= retention is exact.
      An amount val added first is missing once an amount more is added nperiods later. */
  lemma BeyondRetentionMisses(retention: nat, nperiods: int, val: Amount, more: Amount)
    requires nperiods > retention && val.energy > 0.0 && more.energy > 0.0
    ensures var later := Surviving(Increased(Increased(map[], 0, val), nperiods, more), nperiods - retention);
            var added := [Event(0, val), Event(nperiods, more)];
            && RangeSum(later, nperiods - nperiods, nperiods + 1) == more
            && TotalSince(added, nperiods - nperiods) == val.Plus(more)
  {
    hide RangeSum, TotalSince, Surviving, Increased;
    OnlyTheLaterSurvives(retention, nperiods, val, more);
    var later := Surviving(Increased(Increased(map[], 0, val), nperiods, more), nperiods - retention);
    AllZero(later, 0, nperiods);
    RangeSumNext(later, 0, nperiods, nperiods);
    TwoTotals(val, nperiods, more);
  }

  lemma {:induction false} AllZero(m: map<int, Amount>, lo: int, hi: int)
    requires forall p :: lo <= p < hi && p in m ==> m[p] == ZERO
    ensures RangeSum(m, lo, hi) == ZERO
    decreases hi - lo
  {
    if lo < hi {
      AllZero(m, lo, hi - 1);
    }
  }
}
