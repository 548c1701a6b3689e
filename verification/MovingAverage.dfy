/** The two-buffer weighted moving average of include/stat/MovingAverage.hpp. */
module MovingAverages {
  import opened Series

  datatype Sample = Sample(value: real, weight: real)
  {
    function Weighted(): real { value * weight }
  }

  function Weight(s: seq<Sample>): real
  {
    if s == [] then 0.0 else Weight(s[..|s| - 1]) + s[|s| - 1].weight
  }

  /** Sum of value * weight. */
  function Moment(s: seq<Sample>): real
  {
    if s == [] then 0.0 else Moment(s[..|s| - 1]) + s[|s| - 1].Weighted()
  }

  lemma EmptyWeight()
    ensures Weight([]) == Moment([]) == 0.0
  {
  }

  lemma {:induction false} AppendWeight(s: seq<Sample>, x: Sample)
    ensures Weight(s + [x]) == Weight(s) + x.weight
  {
    assert (s + [x])[..|s|] == s;
  }

  lemma {:induction false} DropWeight(s: seq<Sample>)
    requires s != []
    ensures Weight(s) == s[0].weight + Weight(s[1..])
  {
    if |s| > 1 {
      var init := s[..|s| - 1];
      DropWeight(init);
      assert init[1..] == s[1..][..|s| - 2];
    }
  }

  lemma {:induction false} AppendMoment(s: seq<Sample>, x: Sample)
    ensures Moment(s + [x]) == Moment(s) + x.Weighted()
  {
    assert (s + [x])[..|s|] == s;
  }

  lemma {:induction false} DropMoment(s: seq<Sample>)
    requires s != []
    ensures Moment(s) == s[0].Weighted() + Moment(s[1..])
  {
    if |s| > 1 {
      var init := s[..|s| - 1];
      DropMoment(init);
      assert init[1..] == s[1..][..|s| - 2];
    }
  }

  lemma {:induction false} ConcatSamples(s: seq<Sample>, t: seq<Sample>)
    ensures Weight(s + t) == Weight(s) + Weight(t)
    ensures Moment(s + t) == Moment(s) + Moment(t)
  {
    if t == [] {
      assert s + t == s;
    } else {
      var n := |t| - 1;
      ConcatSamples(s, t[..n]);
      assert (s + t)[..|s| + n] == s + t[..n];
    }
  }

  ghost predicate Positive(s: seq<Sample>)
  {
    forall i :: 0 <= i < |s| ==> s[i].weight > 0.0
  }

  lemma {:induction false} WeightNonNegative(s: seq<Sample>)
    requires Positive(s)
    ensures Weight(s) >= 0.0 && (s != [] ==> Weight(s) > 0.0)
  {
    if s != [] {
      WeightNonNegative(s[..|s| - 1]);
    }
  }

  /** Both buffers; the older samples are in last, the newer ones in current. */
  datatype Window = Window(last: seq<Sample>, current: seq<Sample>)
  {
    function Retained(): seq<Sample> { last + current }
  }

  /** Drop old samples while the window is too heavy, always keeping one. */
  function Trim(last: seq<Sample>, currentSize: real, size: real): seq<Sample>
  {
    if Weight(last) + currentSize > size && |last| > 1 then Trim(last[1..], currentSize, size) else last
  }

  lemma TrimUnfold(last: seq<Sample>, currentSize: real, size: real)
    ensures Trim(last, currentSize, size)
         == if Weight(last) + currentSize > size && |last| > 1 then Trim(last[1..], currentSize, size) else last
  {
  }

  function Push(w: Window, x: Sample, size: real): Window
  {
    var current := w.current + [x];
    if Weight(current) >= size then
      Window(Trim(current, 0.0, size), [])
    else
      Window(Trim(w.last, Weight(current), size), current)
  }

  /** The buffers after adding a whole stream of samples to an empty average. */
  function Feed(stream: seq<Sample>, size: real): Window
  {
    if stream == [] then Window([], []) else Push(Feed(stream[..|stream| - 1], size), stream[|stream| - 1], size)
  }

  lemma FeedAppend(stream: seq<Sample>, x: Sample, size: real)
    ensures Feed(stream + [x], size) == Push(Feed(stream, size), x, size)
  {
    assert (stream + [x])[..|stream|] == stream;
  }

  class MovingAverage {
    const size: real
    var lastSum: real
    var lastSize: real
    var last: seq<Sample>
    var currentSum: real
    var currentSize: real
    var current: seq<Sample>
    /** Every sample ever added. */
    ghost var stream: seq<Sample>

    ghost predicate Valid()
      reads this
    {
      && lastSize == Weight(last) && lastSum == Moment(last)
      && currentSize == Weight(current) && currentSum == Moment(current)
      && Window(last, current) == Feed(stream, size)
    }

    constructor (size: real)
      ensures Valid() && stream == [] && this.size == size
    {
      this.size := size;
      lastSum, lastSize, last := 0.0, 0.0, [];
      currentSum, currentSize, current := 0.0, 0.0, [];
      stream := [];
    }

    /** A zero weight counts as one. */
    method Add(value: real, weighting: real := 1.0)
      requires Valid()
      modifies this
      ensures Valid()
      ensures weighting != 0.0 ==> stream == old(stream) + [Sample(value, weighting)]
      ensures weighting == 0.0 ==> stream == old(stream) + [Sample(value, 1.0)]
    {
      hide Weight, Moment, Sample.Weighted, Trim, Feed;
      EmptyWeight();
      var w := if weighting == 0.0 then 1.0 else weighting;
      var x := Sample(value, w);
      ghost var before := Window(last, current);
      AppendWeight(current, x);
      AppendMoment(current, x);

      currentSize := currentSize + w;
      currentSum := currentSum + x.Weighted();
      current := current + [x];

      if currentSize >= size {
        lastSum, lastSize, last := currentSum, currentSize, current;
        currentSum, currentSize, current := 0.0, 0.0, [];
      }

      ghost var goal := Push(before, x, size);
      while lastSize + currentSize > size && |last| > 1
        invariant lastSize == Weight(last) && lastSum == Moment(last)
        invariant currentSize == Weight(current) && currentSum == Moment(current)
        invariant Trim(last, currentSize, size) == goal.last && current == goal.current
        invariant stream == old(stream)
        decreases |last|
      {
        DropWeight(last);
        DropMoment(last);
        TrimUnfold(last, currentSize, size);
        var first := last[0];
        lastSize := lastSize - first.weight;
        lastSum := lastSum - first.Weighted();
        last := last[1..];
      }

      TrimUnfold(last, currentSize, size);
      FeedAppend(stream, x, size);
      stream := stream + [x];
    }

    /** None stands for the exception thrown by an empty average. */
    method Get() returns (r: Option<real>)
      requires Valid()
      ensures r == Average(Feed(stream, size).Retained())
    {
      ConcatSamples(last, current);
      if lastSize + currentSize == 0.0 {
        return None;
      }
      return Some((lastSum + currentSum) / (lastSize + currentSize));
    }

    method Size() returns (n: nat)
      requires Valid()
      ensures n == |Feed(stream, size).Retained()|
    {
      n := |current| + |last|;
    }
  }

  function Average(s: seq<Sample>): Option<real>
  {
    if Weight(s) == 0.0 then None else Some(Moment(s) / Weight(s))
  }

  // ---------------------------------------------------------------- which samples are kept

  function Dropped(stream: seq<Sample>, w: Window): int
  {
    |stream| - |w.last| - |w.current|
  }

  /** What the buffers keep of a stream of positive weights. */
  ghost predicate Keeps(stream: seq<Sample>, w: Window, size: real)
  {
    var d := Dropped(stream, w);
    && EndsWith(stream, d, w.last, w.current)
    && (w.current == [] || Weight(w.current) < size)
    && (Weight(w.last) + Weight(w.current) <= size || |w.last| <= 1)
    && (d > 0 ==> w.last != [] && stream[d - 1].weight + Weight(w.last) + Weight(w.current) > size)
  }

  lemma {:induction false} TrimDropsPrefix(last: seq<Sample>, currentSize: real, size: real) returns (k: nat)
    ensures k <= |last| && Trim(last, currentSize, size) == last[k..]
    ensures last != [] ==> k < |last|
    ensures Weight(last[k..]) + currentSize <= size || |last| - k <= 1
    ensures k > 0 ==> last[k - 1].weight + Weight(last[k..]) + currentSize > size
    decreases |last|
  {
    if Weight(last) + currentSize > size && |last| > 1 {
      DropWeight(last);
      var k' := TrimDropsPrefix(last[1..], currentSize, size);
      k := k' + 1;
      assert last[k..] == last[1..][k'..];
      if k' == 0 {
        assert last[1..][0..] == last[1..];
      }
    } else {
      k := 0;
      assert last[0..] == last;
    }
  }

  /** Closing the current buffer: it becomes the old one, and the previous old buffer is dropped as a whole. */
  lemma {:induction false} SwapKeeps(stream: seq<Sample>, w: Window, size: real)
    requires stream != [] && Positive(stream)
    requires Keeps(stream[..|stream| - 1], w, size)
    requires Weight(w.current + [stream[|stream| - 1]]) >= size
    ensures Keeps(stream, Window(Trim(w.current + [stream[|stream| - 1]], 0.0, size), []), size)
  {
    hide Trim, Weight;
    EmptyWeight();
    var current := w.current + [stream[|stream| - 1]];
    var k := TrimDropsPrefix(current, 0.0, size);
  }

  /** Extending the current buffer: old samples leave from the front of the old buffer. */
  lemma {:induction false} SlideKeeps(stream: seq<Sample>, w: Window, size: real)
    requires stream != [] && Positive(stream)
    requires Keeps(stream[..|stream| - 1], w, size)
    requires Weight(w.current + [stream[|stream| - 1]]) < size
    ensures var current := w.current + [stream[|stream| - 1]];
            Keeps(stream, Window(Trim(w.last, Weight(current), size), current), size)
  {
    hide Trim, Weight;
    var x := stream[|stream| - 1];
    var current := w.current + [x];
    AppendWeight(w.current, x);
    var k := TrimDropsPrefix(w.last, Weight(current), size);
  }

  /** For positive weights the buffers hold a suffix of the stream that fits the window (or a single old sample), and
      it is the longest such: taking one more sample back would exceed the window. */
  lemma {:induction false} FeedKeeps(stream: seq<Sample>, size: real)
    requires Positive(stream)
    ensures Keeps(stream, Feed(stream, size), size)
  {
    if stream == [] {
    } else {
      var init, x := stream[..|stream| - 1], stream[|stream| - 1];
      var w := Feed(init, size);
      FeedKeeps(init, size);
      if Weight(w.current + [x]) >= size {
        SwapKeeps(stream, w, size);
      } else {
        SlideKeeps(stream, w, size);
      }
    }
  }

  // ---------------------------------------------------------------- the average itself

  lemma BoundStep(lo: real, hi: real, w0: real, m0: real, v: real, w: real)
    requires lo * w0 <= m0 <= hi * w0 && lo <= v <= hi && w > 0.0
    ensures lo * (w0 + w) <= m0 + v * w <= hi * (w0 + w)
  {
    assert lo * w <= v * w <= hi * w;
    assert lo * (w0 + w) == lo * w0 + lo * w;
    assert hi * (w0 + w) == hi * w0 + hi * w;
  }

  lemma {:induction false} MomentBounds(s: seq<Sample>, lo: real, hi: real)
    requires Positive(s) && forall i :: 0 <= i < |s| ==> lo <= s[i].value <= hi
    ensures lo * Weight(s) <= Moment(s) <= hi * Weight(s)
  {
    if s != [] {
      var n := |s| - 1;
      MomentBounds(s[..n], lo, hi);
      BoundStep(lo, hi, Weight(s[..n]), Moment(s[..n]), s[n].value, s[n].weight);
    }
  }

  lemma QuotientBounds(m: real, w: real, lo: real, hi: real)
    requires w > 0.0 && lo * w <= m <= hi * w
    ensures lo <= m / w <= hi
  {
    assert (m / w) * w == m;
  }

  lemma KeptIsPositive(stream: seq<Sample>, w: Window, size: real)
    requires Positive(stream) && Keeps(stream, w, size)
    ensures Positive(w.Retained())
    ensures w.Retained() == [] <==> stream == []
  {
    hide Weight;
  }

  /** Over positive weights, an average exists once a sample was added, and it lies between the retained values. */
  lemma AverageWithinRetained(stream: seq<Sample>, size: real, lo: real, hi: real)
    requires Positive(stream)
    requires forall i :: 0 <= i < |Feed(stream, size).Retained()| ==> lo <= Feed(stream, size).Retained()[i].value <= hi
    ensures Average(Feed(stream, size).Retained()).Some? <==> stream != []
    ensures stream != [] ==> lo <= Average(Feed(stream, size).Retained()).value <= hi
  {
    hide Weight, Moment, Feed, Keeps;
    FeedKeeps(stream, size);
    var w := Feed(stream, size);
    KeptIsPositive(stream, w, size);
    var kept := w.Retained();
    WeightNonNegative(kept);
    if stream == [] {
      EmptyWeight();
    } else {
      MomentBounds(kept, lo, hi);
      QuotientBounds(Moment(kept), Weight(kept), lo, hi);
    }
  }

  // ---------------------------------------------------------------- unit weights: a plain mean

  function Unit(values: seq<real>): seq<Sample>
  {
    seq(|values|, i requires 0 <= i < |values| => Sample(values[i], 1.0))
  }

  lemma {:induction false} UnitMoment(values: seq<real>)
    ensures Moment(Unit(values)) == Sum(values)
  {
    if values != [] {
      var n := |values| - 1;
      UnitMoment(values[..n]);
      assert Unit(values)[..n] == Unit(values[..n]);
    }
  }

  lemma {:induction false} UnitWeight(s: seq<Sample>)
    requires forall i :: 0 <= i < |s| ==> s[i].weight == 1.0
    ensures Weight(s) == |s| as real
  {
    if s != [] {
      UnitWeight(s[..|s| - 1]);
    }
  }

  lemma UnitWindowLength(values: seq<real>, window: int)
    ensures var w := Feed(Unit(values), window as real);
            && |w.Retained()| == Min(|values|, Max(window, 1))
            && w.Retained() == Unit(values)[|values| - |w.Retained()|..]
  {
    hide Feed, Weight, Trim;
    var stream, size := Unit(values), window as real;
    FeedKeeps(stream, size);
    var w := Feed(stream, size);
    var d := Dropped(stream, w);
    var a, b := |w.last|, |w.current|;
    UnitWeight(w.last);
    UnitWeight(w.current);
    assert d > 0 ==> 1 + a + b > window && a > 0;
    assert a + b <= window || a <= 1;
    assert b == 0 || b < window;
  }

  /** With unit weights and a whole number of samples as window, the average is the plain mean of the last samples,
      whatever the buffer swaps did. */
  lemma UnitWindowIsPlainMean(values: seq<real>, window: int)
    ensures var kept := LastN(values, Max(window, 1));
            && Feed(Unit(values), window as real).Retained() == Unit(kept)
            && Average(Unit(kept)) == if values == [] then None else Some(Sum(kept) / |kept| as real)
  {
    hide Feed, Trim, Weight, Moment;
    var kept := LastN(values, Max(window, 1));
    UnitWindowLength(values, window);
    assert Unit(kept) == Unit(values)[|values| - |kept|..];
    UnitMoment(kept);
    UnitWeight(Unit(kept));
  }
}
