/** State of charge from a voltage table: src/sensor/voltmeter/VoltmeterSimple.cpp. */
module Voltmeter {
  import opened Series
  import opened MovingAverages

  datatype Threshold = Threshold(percent: int, voltage: real)

  datatype Verdict = Accepted | EmptyTable | FirstNotZero | PercentOrder | VoltageOrder | LastNotHundred

  ghost predicate Increasing(table: seq<Threshold>)
  {
    forall i, j :: 0 <= i < j < |table| ==> table[i].percent < table[j].percent && table[i].voltage < table[j].voltage
  }

  /** The tables the program works with. */
  ghost predicate ValidTable(table: seq<Threshold>)
  {
    && table != [] && table[0].percent == 0 && table[|table| - 1].percent == 100
    && Increasing(table) && table[0].voltage > -1.0
  }

  /** The first n rows are in order and start well. */
  ghost predicate GoodRows(table: seq<Threshold>, n: int)
  {
    && 0 <= n <= |table| && Increasing(table[..n])
    && (n > 0 ==> table[0].percent == 0 && table[0].voltage > -1.0)
  }

  lemma GoodRowsNext(table: seq<Threshold>, n: int)
    requires GoodRows(table, n) && n < |table|
    ensures GoodRows(table, n + 1) <==>
            if n == 0 then table[0].percent == 0 && table[0].voltage > -1.0
            else table[n - 1].percent < table[n].percent && table[n - 1].voltage < table[n].voltage
  {
    var before, after := table[..n], table[..n + 1];
    assert forall i :: 0 <= i < n ==> after[i] == before[i];
    assert after[n] == table[n];
    if n > 0 && table[n - 1].percent < table[n].percent && table[n - 1].voltage < table[n].voltage {
      forall i, j | 0 <= i < j < |after|
        ensures after[i].percent < after[j].percent && after[i].voltage < after[j].voltage
      {
        if j == n && i < n - 1 {
          assert before[i].percent < before[n - 1].percent;
        }
      }
    }
  }

  lemma {:induction false} GoodRowsPrefix(table: seq<Threshold>, n: int, m: int)
    requires GoodRows(table, n) && 0 <= m <= n
    ensures GoodRows(table, m)
  {
    assert forall i :: 0 <= i < m ==> table[..m][i] == table[..n][i];
  }

  lemma GoodRowsRise(table: seq<Threshold>, n: int)
    requires GoodRows(table, n)
    ensures forall j :: 0 < j < n ==> table[j].percent > table[j - 1].percent
  {
    forall j | 0 < j < n
      ensures table[j].percent > table[j - 1].percent
    {
      assert table[..n][j - 1].percent < table[..n][j].percent;
    }
  }

  lemma GoodRowsEnds(table: seq<Threshold>)
    ensures GoodRows(table, 0)
    ensures ValidTable(table) <==> GoodRows(table, |table|) && table != [] && table[|table| - 1].percent == 100
    ensures forall j :: GoodRows(table, j) ==> 0 <= j <= |table|
    ensures forall j :: GoodRows(table, j) && j > 0 ==> table[0].percent == 0 && table[0].voltage > -1.0
  {
    assert table[..|table|] == table;
  }

  /** Accepts exactly the valid tables, and otherwise names the first row at fault. */
  method CheckConfig(table: seq<Threshold>) returns (r: Verdict)
    ensures r == Accepted <==> ValidTable(table)
    ensures r == EmptyTable <==> table == []
    ensures r == FirstNotZero <==> table != [] && table[0].percent != 0
    ensures r == PercentOrder <==>
            exists i :: GoodRows(table, i) && 0 < i < |table| && table[i].percent <= table[i - 1].percent
    ensures r == LastNotHundred <==> table != [] && GoodRows(table, |table|) && table[|table| - 1].percent != 100
  {
    hide GoodRows, ValidTable, Increasing;
    GoodRowsEnds(table);
    if |table| == 0 {
      return EmptyTable;
    }
    var lastPercent, lastVoltage := -1, -1.0;
    var it := 0;
    while it < |table|
      invariant GoodRows(table, it)
      invariant if it == 0 then lastPercent == -1 && lastVoltage == -1.0
                else lastPercent == table[it - 1].percent && lastVoltage == table[it - 1].voltage && lastPercent >= 0
    {
      GoodRowsNext(table, it);
      forall j | GoodRows(table, j) && j > it
        ensures GoodRows(table, it + 1)
      {
        GoodRowsPrefix(table, j, it + 1);
      }
      GoodRowsRise(table, it);
      var percent, tvoltage := table[it].percent, table[it].voltage;
      if lastPercent == -1 && percent != 0 {
        return FirstNotZero;
      }
      if percent <= lastPercent {
        return PercentOrder;
      }
      if tvoltage <= lastVoltage {
        return VoltageOrder;
      }
      lastPercent, lastVoltage := percent, tvoltage;
      it := it + 1;
    }
    GoodRowsRise(table, |table|);
    if lastPercent != 100 {
      return LastNotHundred;
    }
    return Accepted;
  }

  // ---------------------------------------------------------------- interpolation

  /** The straight line through two rows. */
  function Line(a: Threshold, b: Threshold, v: real): real
    requires a.voltage < b.voltage
  {
    a.percent as real + (b.percent - a.percent) as real * ((v - a.voltage) / (b.voltage - a.voltage))
  }

  lemma LineFormula(a: Threshold, b: Threshold, v: real)
    requires a.voltage < b.voltage
    ensures Line(a, b, v)
         == a.percent as real + (b.percent - a.percent) as real * ((v - a.voltage) / (b.voltage - a.voltage))
  {
  }

  lemma LineEnds(a: Threshold, b: Threshold)
    requires a.voltage < b.voltage
    ensures Line(a, b, a.voltage) == a.percent as real && Line(a, b, b.voltage) == b.percent as real
  {
  }

  lemma ScaleUp(c: real, x: real, y: real)
    requires c > 0.0 && x < y
    ensures c * x < c * y
  {
  }

  lemma DivideUp(x: real, y: real, d: real)
    requires d > 0.0 && x < y
    ensures x / d < y / d
  {
    assert y / d - x / d == (y - x) / d;
  }

  lemma LineIncreases(a: Threshold, b: Threshold, v: real, w: real)
    requires a.voltage < b.voltage && a.percent < b.percent && v < w
    ensures Line(a, b, v) < Line(a, b, w)
  {
    var d := b.voltage - a.voltage;
    DivideUp(v - a.voltage, w - a.voltage, d);
    ScaleUp((b.percent - a.percent) as real, (v - a.voltage) / d, (w - a.voltage) / d);
  }

  /** The row that starts the segment holding v. */
  function Segment(table: seq<Threshold>, v: real): (i: nat)
    requires table != [] && table[0].voltage <= v
    ensures i < |table| && table[i].voltage <= v
    ensures i + 1 < |table| ==> exists j :: i < j < |table| && v < table[j].voltage
  {
    if v < table[|table| - 1].voltage then
      Segment(table[..|table| - 1], v)
    else
      |table| - 1
  }

  function StateOfCharge(table: seq<Threshold>, v: real): real
    requires ValidTable(table)
  {
    if v < table[0].voltage then 0.0
    else
      var i := Segment(table, v);
      if i == |table| - 1 then 100.0 else Line(table[i], table[i + 1], v)
  }

  lemma {:induction false} SegmentNext(table: seq<Threshold>, v: real)
    requires table != [] && table[0].voltage <= v && Increasing(table)
    ensures Segment(table, v) + 1 < |table| ==> v < table[Segment(table, v) + 1].voltage
  {
    if v < table[|table| - 1].voltage {
      var init := table[..|table| - 1];
      SegmentNext(init, v);
    }
  }

  /** Segment finds the only segment that holds v. */
  lemma SegmentUnique(table: seq<Threshold>, v: real, i: nat)
    requires table != [] && Increasing(table) && i < |table|
    requires table[i].voltage <= v && (i + 1 < |table| ==> v < table[i + 1].voltage)
    ensures table[0].voltage <= v && Segment(table, v) == i
  {
    if 0 < i {
      assert table[0].voltage < table[i].voltage;
    }
    SegmentNext(table, v);
    var k := Segment(table, v);
  }

  /** On every closed segment the state of charge is the straight line between its rows. */
  lemma LinearOnSegments(table: seq<Threshold>, i: nat, v: real)
    requires ValidTable(table) && i + 1 < |table| && table[i].voltage <= v <= table[i + 1].voltage
    ensures table[i].voltage < table[i + 1].voltage && StateOfCharge(table, v) == Line(table[i], table[i + 1], v)
  {
    LineEnds(table[i], table[i + 1]);
    if v < table[i + 1].voltage {
      SegmentUnique(table, v, i);
    } else {
      SegmentUnique(table, v, i + 1);
      if i + 2 < |table| {
        LineEnds(table[i + 1], table[i + 2]);
      }
    }
  }

  /** At each table voltage the state of charge is the row's own percentage. */
  lemma ExactAtThresholds(table: seq<Threshold>, i: nat)
    requires ValidTable(table) && i < |table|
    ensures StateOfCharge(table, table[i].voltage) == table[i].percent as real
  {
    if i + 1 < |table| {
      LinearOnSegments(table, i, table[i].voltage);
      LineEnds(table[i], table[i + 1]);
    } else {
      SegmentUnique(table, table[i].voltage, i);
    }
  }

  lemma PercentRange(table: seq<Threshold>, i: nat)
    requires ValidTable(table) && i < |table|
    ensures 0 <= table[i].percent <= 100
  {
    assert i == 0 || table[0].percent < table[i].percent;
    assert i == |table| - 1 || table[i].percent < table[|table| - 1].percent;
  }

  lemma InSegment(table: seq<Threshold>, v: real) returns (i: nat)
    requires ValidTable(table) && table[0].voltage <= v < table[|table| - 1].voltage
    ensures i + 1 < |table| && table[i].voltage <= v < table[i + 1].voltage
    ensures table[i].percent as real <= StateOfCharge(table, v) < table[i + 1].percent as real
  {
    i := Segment(table, v);
    SegmentNext(table, v);
    LinearOnSegments(table, i, v);
    LineEnds(table[i], table[i + 1]);
    if table[i].voltage < v {
      LineIncreases(table[i], table[i + 1], table[i].voltage, v);
    }
    LineIncreases(table[i], table[i + 1], v, table[i + 1].voltage);
  }

  /** The state of charge stays within 0 and 100, and reaches neither end strictly inside the table. */
  lemma StateOfChargeRange(table: seq<Threshold>, v: real)
    requires ValidTable(table)
    ensures 0.0 <= StateOfCharge(table, v) <= 100.0
    ensures StateOfCharge(table, v) == 100.0 <==> table[|table| - 1].voltage <= v
    ensures StateOfCharge(table, v) == 0.0 <==> v <= table[0].voltage
  {
    if table[|table| - 1].voltage <= v {
      SegmentUnique(table, v, |table| - 1);
    } else if v < table[0].voltage {
      if |table| > 1 {
        assert table[0].voltage < table[|table| - 1].voltage;
      }
    } else {
      var i := InSegment(table, v);
      PercentRange(table, i);
      PercentRange(table, i + 1);
      if v == table[0].voltage {
        ExactAtThresholds(table, 0);
      } else {
        StrictlyAboveStart(table, i, v);
      }
    }
  }

  lemma StrictlyAboveStart(table: seq<Threshold>, i: nat, v: real)
    requires ValidTable(table) && i + 1 < |table| && table[i].voltage <= v < table[i + 1].voltage
    requires table[0].voltage < v
    ensures StateOfCharge(table, v) > 0.0
  {
    LinearOnSegments(table, i, v);
    LineEnds(table[i], table[i + 1]);
    PercentRange(table, i);
    if table[i].voltage < v {
      LineIncreases(table[i], table[i + 1], table[i].voltage, v);
    } else {
      assert table[0].percent < table[i].percent;
    }
  }

  /** More voltage never means less charge; between the end rows it means strictly more. */
  lemma StateOfChargeMonotone(table: seq<Threshold>, v: real, w: real)
    requires ValidTable(table) && v < w
    ensures StateOfCharge(table, v) <= StateOfCharge(table, w)
    ensures table[0].voltage <= v && w <= table[|table| - 1].voltage ==>
      StateOfCharge(table, v) < StateOfCharge(table, w)
  {
    StateOfChargeRange(table, v);
    StateOfChargeRange(table, w);
    if table[0].voltage <= v && w < table[|table| - 1].voltage {
      var i := InSegment(table, v);
      var j := InSegment(table, w);
      if i == j {
        LinearOnSegments(table, i, v);
        LinearOnSegments(table, i, w);
        LineIncreases(table[i], table[i + 1], v, w);
      } else if i < j {
        assert i + 1 == j || table[i + 1].percent < table[j].percent;
      }
    }
  }

  /** A charging battery never reads a higher charge than the same voltage would at rest, and never a lower one when the
      charge delta is negative. */
  lemma ChargingReadsLess(table: seq<Threshold>, voltage: real, chargeDelta: real)
    requires ValidTable(table)
    ensures chargeDelta >= 0.0 ==> StateOfCharge(table, voltage - chargeDelta) <= StateOfCharge(table, voltage)
    ensures chargeDelta <= 0.0 ==> StateOfCharge(table, voltage - chargeDelta) >= StateOfCharge(table, voltage)
  {
    hide StateOfCharge, ValidTable;
    if chargeDelta > 0.0 {
      StateOfChargeMonotone(table, voltage - chargeDelta, voltage);
    } else if chargeDelta < 0.0 {
      StateOfChargeMonotone(table, voltage, voltage - chargeDelta);
    }
  }

  class VoltmeterSimple {
    const thresholds: seq<Threshold>
    const chargeDelta: real
    const voltageAvg: MovingAverage

    ghost predicate Valid()
      reads this, voltageAvg
    {
      ValidTable(thresholds) && voltageAvg.Valid() && Positive(voltageAvg.stream)
    }

    constructor (thresholds: seq<Threshold>, chargeDelta: real, voltageAvg: MovingAverage)
      requires ValidTable(thresholds) && voltageAvg.Valid() && voltageAvg.stream == []
      ensures Valid() && this.thresholds == thresholds && this.chargeDelta == chargeDelta
      ensures this.voltageAvg == voltageAvg
    {
      this.thresholds, this.chargeDelta, this.voltageAvg := thresholds, chargeDelta, voltageAvg;
    }

    ghost function Average(): Option<real>
      reads this, voltageAvg
    {
      MovingAverages.Average(Feed(voltageAvg.stream, voltageAvg.size).Retained())
    }

    method GetVoltage() returns (v: real)
      requires Valid()
      ensures voltageAvg.stream == [] ==> v == -1.0
      ensures voltageAvg.stream != [] ==> Average() == Some(v)
    {
      hide Weight, Moment, Feed, Trim, Keeps;
      var n := voltageAvg.Size();
      var avg := voltageAvg.Get();
      EmptyWeight();
      FeedNil(voltageAvg.size);
      if n == 0 {
        AverageWithinRetained(voltageAvg.stream, voltageAvg.size, 0.0, 0.0);
        return -1.0;
      }
      AverageExists(voltageAvg.stream, voltageAvg.size);
      return avg.value;
    }

    /** Walks the table once; every division is by a positive voltage step. */
    method GetSOC(charging: bool) returns (soc: real)
      requires Valid()
      ensures voltageAvg.stream == [] ==>
        soc == StateOfCharge(thresholds, -1.0 - if charging then chargeDelta else 0.0)
      ensures voltageAvg.stream != [] ==>
        Average().Some? && soc == StateOfCharge(thresholds, Average().value - if charging then chargeDelta else 0.0)
    {
      var voltage := GetVoltage();
      if charging {
        voltage := voltage - chargeDelta;
      }
      soc := Walk(voltage);
    }

    method Walk(voltage: real) returns (soc: real)
      requires ValidTable(thresholds)
      ensures soc == StateOfCharge(thresholds, voltage)
    {
      hide StateOfCharge, Segment, Line;
      var percentStart, percentEnd := 0, 0;
      var voltageStart, voltageEnd := 0.0, 0.0;
      var it := 0;
      while it < |thresholds|
        invariant 0 <= it <= |thresholds|
        invariant it > 0 ==>
          && percentStart == thresholds[it - 1].percent && voltageStart == thresholds[it - 1].voltage
          && percentStart < 100 && voltageStart <= voltage
      {
        percentEnd, voltageEnd := thresholds[it].percent, thresholds[it].voltage;
        if percentEnd == 0 && voltage < voltageEnd {
          StateOfChargeRange(thresholds, voltage);
          return 0.0;
        }
        if percentEnd == 100 && voltage >= voltageEnd {
          StateOfChargeRange(thresholds, voltage);
          return 100.0;
        }
        if voltageEnd > voltage {
          LinearOnSegments(thresholds, it - 1, voltage);
          LineFormula(thresholds[it - 1], thresholds[it], voltage);
          break;
        }
        percentStart, voltageStart := percentEnd, voltageEnd;
        PercentRange(thresholds, it);
        it := it + 1;
      }
      var position := (voltage - voltageStart) / (voltageEnd - voltageStart);
      soc := percentStart as real + (percentEnd - percentStart) as real * position;
    }
  }

  lemma FeedNil(size: real)
    ensures Feed([], size).Retained() == []
  {
  }

  lemma AverageExists(stream: seq<Sample>, size: real)
    requires Positive(stream) && Feed(stream, size).Retained() != []
    ensures MovingAverages.Average(Feed(stream, size).Retained()).Some?
  {
    hide Weight, Moment, Feed, Keeps;
    FeedKeeps(stream, size);
    KeptIsPositive(stream, Feed(stream, size), size);
    WeightNonNegative(Feed(stream, size).Retained());
  }
}
