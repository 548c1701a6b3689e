/** The "how often was the value at least r" index of include/stat/CumulativeHigherFrequency.hpp. */
module HigherFrequencies {
  import opened Series

  /** How many samples are at least r. */
  function CountAtLeast(held: seq<real>, r: real): (n: nat)
    ensures n <= |held|
  {
    if held == [] then 0 else CountAtLeast(held[..|held| - 1], r) + if held[|held| - 1] >= r then 1 else 0
  }

  lemma {:induction false} CountAppend(held: seq<real>, x: real, r: real)
    ensures CountAtLeast(held + [x], r) == CountAtLeast(held, r) + if x >= r then 1 else 0
  {
    assert (held + [x])[..|held|] == held;
  }

  lemma {:induction false} CountDropFirst(held: seq<real>, r: real)
    requires held != []
    ensures CountAtLeast(held, r) == CountAtLeast(held[1..], r) + if held[0] >= r then 1 else 0
  {
    if |held| > 1 {
      var init := held[..|held| - 1];
      CountDropFirst(init, r);
      assert init[1..] == held[1..][..|held| - 2];
    }
  }

  lemma {:induction false} CountAntitone(held: seq<real>, r: real, s: real)
    requires r <= s
    ensures CountAtLeast(held, s) <= CountAtLeast(held, r)
  {
    if held != [] {
      CountAntitone(held[..|held| - 1], r, s);
    }
  }

  /** Share of the samples that are at least r. */
  function Fraction(held: seq<real>, r: real): real
    requires held != []
  {
    CountAtLeast(held, r) as real / |held| as real
  }

  lemma FractionAntitone(held: seq<real>, r: real, s: real)
    requires held != [] && r <= s
    ensures Fraction(held, s) <= Fraction(held, r)
  {
    CountAntitone(held, r, s);
    DivideMonotone(CountAtLeast(held, s) as real, CountAtLeast(held, r) as real, |held| as real);
  }

  lemma DivideMonotone(a: real, b: real, n: real)
    requires a <= b && n > 0.0
    ensures a / n <= b / n
  {
  }

  // ---------------------------------------------------------------- the bucket bounds

  ghost predicate Ascending(bounds: seq<real>)
  {
    forall i, j :: 0 <= i < j < |bounds| ==> bounds[i] < bounds[j]
  }

  function BoundAt(min: real, step: real, i: int): real
  {
    min + i as real * step
  }

  /** The bounds min, min + step, ... up to max. */
  ghost predicate AreBuckets(bounds: seq<real>, min: real, max: real, step: real)
  {
    && (forall i :: 0 <= i < |bounds| ==> bounds[i] == BoundAt(min, step, i))
    && (bounds != [] ==> bounds[|bounds| - 1] <= max)
    && max < BoundAt(min, step, |bounds|)
  }

  lemma BoundNext(min: real, step: real, i: int)
    ensures BoundAt(min, step, 0) == min
    ensures BoundAt(min, step, i + 1) == BoundAt(min, step, i) + step
  {
  }

  lemma BoundUp(min: real, step: real, i: int, j: int)
    requires step > 0.0 && i < j
    ensures BoundAt(min, step, i) < BoundAt(min, step, j)
  {
    assert (j - i) as real * step > 0.0;
    assert j as real * step == i as real * step + (j - i) as real * step;
  }

  lemma BucketsAscend(bounds: seq<real>, min: real, max: real, step: real)
    requires step > 0.0 && AreBuckets(bounds, min, max, step)
    ensures Ascending(bounds)
  {
    hide BoundAt;
    forall i, j | 0 <= i < j < |bounds|
      ensures bounds[i] < bounds[j]
    {
      BoundUp(min, step, i, j);
    }
  }

  /** Index of the first bound above v (std::map::upper_bound). */
  function UpperBound(bounds: seq<real>, v: real): (k: nat)
    ensures k <= |bounds| && (forall i :: 0 <= i < k ==> bounds[i] <= v) && (k < |bounds| ==> v < bounds[k])
  {
    if bounds == [] || v < bounds[0] then 0 else 1 + UpperBound(bounds[1..], v)
  }

  /** Index of the first bound that is at least v (std::map::lower_bound). */
  function LowerBound(bounds: seq<real>, v: real): (k: nat)
    ensures k <= |bounds| && (forall i :: 0 <= i < k ==> bounds[i] < v) && (k < |bounds| ==> v <= bounds[k])
  {
    if bounds == [] || v <= bounds[0] then 0 else 1 + LowerBound(bounds[1..], v)
  }

  /** The bucket that answers a query: the first bound that is at least v, or the last bound when there is none. */
  function Bucket(bounds: seq<real>, v: real): (b: real)
    requires bounds != []
    ensures b in bounds
  {
    var k := LowerBound(bounds, v);
    if k == |bounds| then bounds[|bounds| - 1] else bounds[k]
  }

  /** None stands for the 0/0 (not a number) of an index without samples. */
  function BucketFrequency(held: seq<real>, b: real): Option<real>
  {
    if held == [] then None else Some(Fraction(held, b))
  }

  function Frequency(bounds: seq<real>, held: seq<real>, v: real): Option<real>
    requires bounds != []
  {
    BucketFrequency(held, Bucket(bounds, v))
  }

  /** Every bucket counts the held samples that reach its bound. */
  ghost predicate Tallies(bounds: seq<real>, sizes: map<real, int>, held: seq<real>)
  {
    && (forall b :: b in bounds <==> b in sizes)
    && (forall b :: b in sizes ==> sizes[b] == CountAtLeast(held, b))
  }

  ghost predicate Bumped(before: map<real, int>, after: map<real, int>, value: real, delta: int)
  {
    && (forall b :: b in before <==> b in after)
    && (forall b :: b in after ==> after[b] == before[b] + if b <= value then delta else 0)
  }

  lemma TalliesKeys(bounds: seq<real>, sizes: map<real, int>, held: seq<real>)
    requires Tallies(bounds, sizes, held)
    ensures forall b :: b in bounds <==> b in sizes
  {
  }

  lemma TalliesMore(bounds: seq<real>, before: map<real, int>, after: map<real, int>, held: seq<real>, value: real)
    requires Tallies(bounds, before, held) && Bumped(before, after, value, 1)
    ensures Tallies(bounds, after, held + [value])
  {
    hide CountAtLeast;
    forall b | b in after
      ensures after[b] == CountAtLeast(held + [value], b)
    {
      CountAppend(held, value, b);
    }
  }

  lemma TalliesLess(bounds: seq<real>, before: map<real, int>, after: map<real, int>, held: seq<real>)
    requires held != [] && Tallies(bounds, before, held) && Bumped(before, after, held[0], -1)
    ensures Tallies(bounds, after, held[1..])
  {
    hide CountAtLeast;
    forall b | b in after
      ensures after[b] == CountAtLeast(held[1..], b)
    {
      CountDropFirst(held, b);
    }
  }

  class HigherFrequency {
    const windowSize: nat
    /** The keys of range_size in their order. */
    const bounds: seq<real>
    var rangeSize: map<real, int>
    var values: seq<real>
    /** Every sample ever added. */
    ghost var stream: seq<real>

    ghost predicate Valid()
      reads this
    {
      && Ascending(bounds)
      && values == LastN(stream, Max(windowSize, 1))
      && Tallies(bounds, rangeSize, values)
    }

    constructor (windowSize: nat, min: real, max: real, step: real)
      requires step > 0.0
      ensures Valid() && stream == [] && this.windowSize == windowSize
      ensures AreBuckets(bounds, min, max, step)
    {
      hide BoundAt, CountAtLeast;
      BoundNext(min, step, 0);
      var keys: seq<real> := [];
      var sizes: map<real, int> := map[];
      var i := min;
      ghost var limit := if max < min then 0 else ((max - min) / step).Floor + 1;
      while i <= max
        invariant i == BoundAt(min, step, |keys|)
        invariant forall k :: 0 <= k < |keys| ==> keys[k] == BoundAt(min, step, k)
        invariant keys != [] ==> keys[|keys| - 1] <= max
        invariant forall b :: b in keys <==> b in sizes
        invariant forall b :: b in sizes ==> sizes[b] == 0
        invariant |keys| <= limit
        decreases limit - |keys|
      {
        StepsFit(min, max, step, |keys|);
        BoundNext(min, step, |keys|);
        keys := keys + [i];
        sizes := sizes[i := 0];
        i := i + step;
      }
      BucketsAscend(keys, min, max, step);
      this.windowSize := windowSize;
      bounds, rangeSize, values, stream := keys, sizes, [], [];
    }

    /** Adds delta to every bucket whose bound is at most value. */
    method Bump(value: real, delta: int)
      requires Ascending(bounds) && forall b :: b in bounds <==> b in rangeSize
      modifies this`rangeSize
      ensures Bumped(old(rangeSize), rangeSize, value, delta)
    {
      var itMax := UpperBound(bounds, value);
      var it := 0;
      while it != itMax
        invariant 0 <= it <= itMax
        invariant forall b :: b in bounds <==> b in rangeSize
        invariant forall j :: 0 <= j < |bounds| ==>
          rangeSize[bounds[j]] == old(rangeSize)[bounds[j]] + if j < it then delta else 0
      {
        rangeSize := rangeSize[bounds[it] := rangeSize[bounds[it]] + delta];
        it := it + 1;
      }
    }

    method Add(value: real)
      requires Valid()
      modifies this
      ensures Valid() && stream == old(stream) + [value]
    {
      hide Tallies, Bumped, Ascending, LastN;
      LastNLength(stream, Max(windowSize, 1));
      TalliesKeys(bounds, rangeSize, values);
      ghost var sizes := rangeSize;
      Bump(value, 1);
      TalliesMore(bounds, sizes, rangeSize, values, value);
      values := values + [value];
      stream := stream + [value];
      while |values| > 1 && |values| > windowSize
        invariant Tallies(bounds, rangeSize, values)
        invariant stream == old(stream) + [value]
        invariant |values| <= |stream| && values == stream[|stream| - |values|..]
        invariant |values| >= Min(|stream|, Max(windowSize, 1))
        decreases |values|
      {
        TalliesKeys(bounds, rangeSize, values);
        sizes := rangeSize;
        Bump(values[0], -1);
        TalliesLess(bounds, sizes, rangeSize, values);
        SuffixTail(stream, values);
        values := values[1..];
      }
      IsLastN(stream, values, Max(windowSize, 1));
    }

    /** Reads the bucket that answers v. With no bucket at all the source reads past the end of the map, so at least one
        is demanded; every index of the program has the bucket 0. */
    method GetFrequency(v: real) returns (r: Option<real>)
      requires Valid() && bounds != []
      ensures r == Frequency(bounds, LastN(stream, Max(windowSize, 1)), v)
    {
      var it := LowerBound(bounds, v);
      var range := if it == |bounds| then bounds[|bounds| - 1] else bounds[it];
      if values == [] {
        return None;
      }
      return Some(rangeSize[range] as real / |values| as real);
    }

    method GetFrequencies() returns (r: map<real, Option<real>>)
      requires Valid()
      ensures forall b :: b in r <==> b in bounds
      ensures forall b :: b in r ==> r[b] == BucketFrequency(LastN(stream, Max(windowSize, 1)), b)
    {
      r := map b | b in rangeSize :: if values == [] then None else Some(rangeSize[b] as real / |values| as real);
    }
  }

  lemma StepsFit(min: real, max: real, step: real, k: nat)
    requires step > 0.0 && BoundAt(min, step, k) <= max
    ensures k < ((max - min) / step).Floor + 1 && min <= max
  {
    assert k as real * step >= 0.0;
    CancelFactor(k as real, max - min, step);
  }

  lemma CancelFactor(a: real, b: real, step: real)
    requires step > 0.0 && a * step <= b
    ensures a <= b / step
  {
    assert b / step - a == (b - a * step) / step;
  }

  // ---------------------------------------------------------------- what a frequency says

  lemma BucketBrackets(bounds: seq<real>, min: real, max: real, step: real, v: real)
    requires step > 0.0 && AreBuckets(bounds, min, max, step) && bounds != []
    requires min <= v <= bounds[|bounds| - 1]
    ensures v <= Bucket(bounds, v) < v + step
  {
    hide BoundAt;
    var k := LowerBound(bounds, v);
    assert k < |bounds|;
    BoundNext(min, step, k - 1);
  }

  /** Inside the bucket range the stored frequency lies between the exact shares at v and one step above. */
  lemma FrequencySandwich(bounds: seq<real>, min: real, max: real, step: real, held: seq<real>, v: real)
    requires step > 0.0 && AreBuckets(bounds, min, max, step) && bounds != [] && held != []
    requires min <= v <= bounds[|bounds| - 1]
    ensures Frequency(bounds, held, v).Some?
    ensures Fraction(held, v + step) <= Frequency(bounds, held, v).value <= Fraction(held, v)
  {
    BucketBrackets(bounds, min, max, step, v);
    FractionAntitone(held, v, Bucket(bounds, v));
    FractionAntitone(held, Bucket(bounds, v), v + step);
  }

  lemma FrequencyAntitone(bounds: seq<real>, held: seq<real>, v: real, w: real)
    requires Ascending(bounds) && bounds != [] && held != [] && v <= w
    ensures Frequency(bounds, held, w).value <= Frequency(bounds, held, v).value
  {
    var i, j := LowerBound(bounds, v), LowerBound(bounds, w);
    assert i <= j;
    FractionAntitone(held, Bucket(bounds, v), Bucket(bounds, w));
  }

  /** The stored frequency never overstates the share of samples that reached v, on any window, exactly when v does not
      exceed the last bound: above it the query saturates. */
  lemma NeverOverstatesIffInRange(bounds: seq<real>, v: real)
    requires Ascending(bounds) && bounds != []
    ensures (forall held: seq<real> | held != [] :: Frequency(bounds, held, v).value <= Fraction(held, v))
       <==> v <= bounds[|bounds| - 1]
  {
    var last := bounds[|bounds| - 1];
    if v <= last {
      forall held: seq<real> | held != []
        ensures Frequency(bounds, held, v).value <= Fraction(held, v)
      {
        FractionAntitone(held, v, Bucket(bounds, v));
      }
    } else {
      var held := [last];
      assert held[..0] == [];
      assert LowerBound(bounds, v) == |bounds|;
      assert Fraction(held, v) == 0.0 && Frequency(bounds, held, v).value == 1.0;
    }
  }
}
