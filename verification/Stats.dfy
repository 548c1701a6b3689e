/** Power statistics and the predictions drawn from them: src/thread/Stats.cpp. */
module Statistics {
  import opened Series
  import opened MovingAverages
  import opened HigherFrequencies

  datatype Tier = Slow | Medium | Fast

  function TierOf(minOn: nat, fastTime: nat, mediumTime: nat): Tier
  {
    if minOn <= fastTime then Fast else if minOn <= mediumTime then Medium else Slow
  }

  /** What the offload algorithm can see of the statistics. */
  datatype Snapshot = Snapshot(
    bounds: seq<real>, slow: seq<real>, medium: seq<real>, fast: seq<real>, fastTime: nat, mediumTime: nat,
    exportMargin: real, average: real)
  {
    /** The samples held for devices with this minimum on-time. */
    function Held(minOn: nat): seq<real>
    {
      match TierOf(minOn, fastTime, mediumTime)
      case Slow => slow
      case Medium => medium
      case Fast => fast
    }

    function Prediction(minOn: nat, power: real): Option<real>
      requires bounds != []
    {
      Frequency(bounds, Held(minOn), power + exportMargin)
    }
  }

  datatype Times = Times(slow: nat, medium: nat, fast: nat, smoothing: nat)

  const BUCKET_STEP := 100.0

  /** The statistics after a stream of samples, one a second. */
  function Observed(bounds: seq<real>, times: Times, exportMargin: real, stream: seq<real>): Snapshot
  {
    var smoothed := LastN(stream, Max(times.smoothing, 1));
    Snapshot(
      bounds, LastN(stream, Max(times.slow, 1)), LastN(stream, Max(times.medium, 1)), LastN(stream, Max(times.fast, 1)),
      times.fast, times.medium, exportMargin,
      if smoothed == [] then 0.0 else Sum(smoothed) / |smoothed| as real)
  }

  /** The average that devices are kept on by. */
  lemma ObservedAverage(bounds: seq<real>, times: Times, exportMargin: real, stream: seq<real>)
    requires stream != []
    ensures var smoothed := LastN(stream, Max(times.smoothing, 1));
            && smoothed != []
            && Observed(bounds, times, exportMargin, stream).average * |smoothed| as real == Sum(smoothed)
  {
    var smoothed := LastN(stream, Max(times.smoothing, 1));
    assert Sum(smoothed) / |smoothed| as real * |smoothed| as real == Sum(smoothed);
  }

  /** A prediction that holds is a promise about the recent past: if it reaches the precision and the power with the
      export margin is within the buckets, at least that share of the tier's samples had the power. */
  lemma PredictionIsShare(s: Snapshot, minOn: nat, power: real, precision: real)
    requires s.bounds != [] && Ascending(s.bounds)
    requires s.Prediction(minOn, power).Some? && s.Prediction(minOn, power).value >= precision
    requires power + s.exportMargin <= s.bounds[|s.bounds| - 1]
    ensures s.Held(minOn) != [] && Fraction(s.Held(minOn), power + s.exportMargin) >= precision
  {
    NeverOverstatesIffInRange(s.bounds, power + s.exportMargin);
  }

  /** And a prediction that falls short tells that one bucket step more was not available often enough. */
  lemma ShortfallIsShare(s: Snapshot, max: real, minOn: nat, power: real, precision: real)
    requires s.bounds != [] && AreBuckets(s.bounds, 0.0, max, BUCKET_STEP) && s.Held(minOn) != []
    requires s.Prediction(minOn, power).None? || s.Prediction(minOn, power).value < precision
    requires 0.0 <= power + s.exportMargin <= s.bounds[|s.bounds| - 1]
    ensures Fraction(s.Held(minOn), power + s.exportMargin + BUCKET_STEP) < precision
  {
    hide AreBuckets, Fraction;
    FrequencySandwich(s.bounds, 0.0, max, BUCKET_STEP, s.Held(minOn), power + s.exportMargin);
  }

  /** Above the last bucket a prediction promises nothing: one sample at the last bound predicts any higher power. */
  lemma SaturatedPrediction(bounds: seq<real>, times: Times, exportMargin: real, minOn: nat, power: real)
    requires bounds != [] && Ascending(bounds) && power + exportMargin > bounds[|bounds| - 1]
    ensures var last := bounds[|bounds| - 1];
            var s := Observed(bounds, times, exportMargin, [last]);
            && s.bounds == bounds && s.Held(minOn) == [last] && s.Prediction(minOn, power) == Some(1.0)
            && Fraction([last], power + exportMargin) == 0.0
  {
    var last := bounds[|bounds| - 1];
    assert [last][..0] == [];
    assert LowerBound(bounds, power + exportMargin) == |bounds|;
    assert CountAtLeast([last], last) == 1 && CountAtLeast([last], power + exportMargin) == 0;
  }

  // ---------------------------------------------------------------- weather

  datatype Weather = Constant | Variable

  /** Some samples but not all reach the bound. */
  predicate Separates(held: seq<real>, bound: real)
  {
    0 < CountAtLeast(held, bound) < |held|
  }

  function Separating(bounds: seq<real>, held: seq<real>): nat
  {
    if bounds == [] then 0
    else Separating(bounds[..|bounds| - 1], held) + if Separates(held, bounds[|bounds| - 1]) then 1 else 0
  }

  lemma {:induction false} SeparatingTail(bounds: seq<real>, held: seq<real>, k: nat)
    requires k <= |bounds| && forall i :: k <= i < |bounds| ==> !Separates(held, bounds[i])
    ensures Separating(bounds, held) == Separating(bounds[..k], held)
    decreases |bounds|
  {
    if k < |bounds| {
      var init := bounds[..|bounds| - 1];
      SeparatingTail(init, held, k);
      assert init[..k] == bounds[..k];
    } else {
      assert bounds[..k] == bounds;
    }
  }

  lemma DividedByItself(n: real)
    requires n > 0.0
    ensures n / n == 1.0
  {
  }

  lemma FrequencyEnds(held: seq<real>, b: real)
    requires held != []
    ensures Fraction(held, b) == 0.0 <==> CountAtLeast(held, b) == 0
    ensures Fraction(held, b) == 1.0 <==> CountAtLeast(held, b) == |held|
    ensures Separates(held, b) <==> Fraction(held, b) != 0.0 && Fraction(held, b) != 1.0
  {
    var c, n := CountAtLeast(held, b) as real, |held| as real;
    assert c / n * n == c;
    DividedByItself(n);
  }

  class Stats {
    const times: Times
    const exportMargin: real
    const slow: HigherFrequency
    const medium: HigherFrequency
    const fast: HigherFrequency
    const production: HigherFrequency
    const average: MovingAverage
    var snapAverage: real
    /** Every controllable power and every solar production sampled so far. */
    ghost var stream: seq<real>
    ghost var produced: seq<real>

    ghost function Objects(): set<object>
    {
      {slow, medium, fast, production, average}
    }

    ghost predicate Valid()
      reads this, slow, medium, fast, production, average
    {
      && slow != medium && slow != fast && slow != production && medium != fast && medium != production
      && fast != production
      && Index(slow, times.slow, stream) && Index(medium, times.medium, stream) && Index(fast, times.fast, stream)
      && Index(production, times.slow, produced)
      && average.Valid() && average.stream == Unit(stream) && average.size == times.smoothing as real
      && snapAverage == View().average
    }

    ghost predicate Index(f: HigherFrequency, time: nat, samples: seq<real>)
      reads f
    {
      f.Valid() && f.windowSize == time && f.bounds == slow.bounds && f.bounds != [] && f.stream == samples
    }

    ghost function View(): Snapshot
      reads this
    {
      Observed(slow.bounds, times, exportMargin, stream)
    }

    constructor (times: Times, exportMargin: real, offloadMax: real)
      requires offloadMax >= 0.0
      ensures Valid() && fresh(Objects()) && stream == produced == []
      ensures this.times == times && this.exportMargin == exportMargin
      ensures AreBuckets(slow.bounds, 0.0, offloadMax, BUCKET_STEP)
    {
      hide BoundAt, HigherFrequency.Valid, MovingAverage.Valid, Feed, Sum;
      UnitNil();
      this.times, this.exportMargin := times, exportMargin;
      var s := new HigherFrequency(times.slow, 0.0, offloadMax, BUCKET_STEP);
      var m := new HigherFrequency(times.medium, 0.0, offloadMax, BUCKET_STEP);
      var f := new HigherFrequency(times.fast, 0.0, offloadMax, BUCKET_STEP);
      var p := new HigherFrequency(times.slow, 0.0, offloadMax, BUCKET_STEP);
      SameBuckets(s.bounds, m.bounds, offloadMax);
      SameBuckets(s.bounds, f.bounds, offloadMax);
      SameBuckets(s.bounds, p.bounds, offloadMax);
      slow, medium, fast, production := s, m, f, p;
      average := new MovingAverage(times.smoothing as real);
      snapAverage := 0.0;
      stream, produced := [], [];
    }

    /** One round of the sampling thread. */
    method Sample(controllablePower: real, pvPower: real)
      requires Valid()
      modifies this, Objects()
      ensures Valid() && stream == old(stream) + [controllablePower] && produced == old(produced) + [pvPower]
    {
      hide HigherFrequency.Valid, MovingAverage.Valid, Feed, Sum, Average;
      slow.Add(controllablePower);
      medium.Add(controllablePower);
      fast.Add(controllablePower);
      production.Add(pvPower);
      average.Add(controllablePower);
      stream := stream + [controllablePower];
      produced := produced + [pvPower];
      UnitAppend(old(stream), controllablePower);
      UnitWindowIsPlainMean(stream, times.smoothing);
      var avg := average.Get();
      snapAverage := avg.value;
    }

    method GetDevicePrediction(minOn: nat, power: real) returns (r: Option<real>)
      requires Valid()
      ensures r == View().Prediction(minOn, power)
    {
      hide HigherFrequency.Valid, MovingAverage.Valid, Frequency, Sum, Unit, LastN;
      if minOn <= times.fast {
        r := fast.GetFrequency(power + exportMargin);
      } else if minOn <= times.medium {
        r := medium.GetFrequency(power + exportMargin);
      } else {
        r := slow.GetFrequency(power + exportMargin);
      }
    }

    /** With samples at hand the weather is constant when at most one bucket bound lies above some held production
        sample but not above all; the early exit of the loop loses nothing. */
    method GetWeatherType() returns (w: Weather)
      requires Valid()
      ensures var held := LastN(produced, Max(times.slow, 1));
              w == Constant <==> (if held == [] then |slow.bounds| else Separating(slow.bounds, held)) <= 1
    {
      hide CountAtLeast, Fraction, Separates, LastN, Sum, Unit, MovingAverage.Valid;
      ghost var held := LastN(produced, Max(times.slow, 1));
      var frequencies := production.GetFrequencies();
      var bounds := production.bounds;
      var max, total := 0, 0;
      var it := 0;
      while it < |bounds|
        invariant 0 <= it <= |bounds| && 0 <= max <= total
        invariant total - max == if held == [] then it else Separating(bounds[..it], held)
      {
        assert bounds[it] in bounds;
        var frequency := frequencies[bounds[it]];
        if held != [] {
          FrequencyEnds(held, bounds[it]);
        }
        if frequency == Some(0.0) {
          ZeroFromHereOn(held, bounds, it);
          break;
        }
        assert bounds[..it + 1][..it] == bounds[..it];
        if frequency == Some(1.0) {
          max := max + 1;
        }
        total := total + 1;
        it := it + 1;
      }
      assert it == |bounds| ==> bounds[..it] == bounds;
      w := if total - max <= 1 then Constant else Variable;
    }
  }

  lemma ZeroFromHereOn(held: seq<real>, bounds: seq<real>, it: nat)
    requires Ascending(bounds) && it < |bounds| && CountAtLeast(held, bounds[it]) == 0
    ensures Separating(bounds, held) == Separating(bounds[..it], held)
  {
    forall i | it <= i < |bounds|
      ensures !Separates(held, bounds[i])
    {
      CountAntitone(held, bounds[it], bounds[i]);
    }
    SeparatingTail(bounds, held, it);
  }

  lemma SameBuckets(a: seq<real>, b: seq<real>, max: real)
    requires AreBuckets(a, 0.0, max, BUCKET_STEP) && AreBuckets(b, 0.0, max, BUCKET_STEP) && max >= 0.0
    ensures a == b && a != []
  {
    assert BoundAt(0.0, BUCKET_STEP, 0) == 0.0;
  }

  lemma UnitNil()
    ensures Unit([]) == []
  {
  }

  lemma UnitAppend(stream: seq<real>, x: real)
    ensures Unit(stream + [x]) == Unit(stream) + [Sample(x, 1.0)]
  {
  }
}
