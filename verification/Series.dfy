/** Sums and suffixes of sequences, shared by the sliding windows and the accounting modules. */
module Series {

  datatype Option<+T> = None | Some(value: T)

  function Max(a: int, b: int): int { if a > b then a else b }

  function Min(a: int, b: int): int { if a < b then a else b }

  function MaxReal(a: real, b: real): real { if a > b then a else b }

  function Abs(a: real): real { if a < 0.0 then -a else a }

  function Sum(xs: seq<real>): real
  {
    if xs == [] then 0.0 else Sum(xs[..|xs| - 1]) + xs[|xs| - 1]
  }

  /** The last n elements of xs (all of them when there are fewer). */
  function LastN<T>(xs: seq<T>, n: nat): seq<T>
  {
    if |xs| <= n then xs else xs[|xs| - n..]
  }

  /** xs from index d on is a followed by b. */
  ghost predicate EndsWith<T(!new)>(xs: seq<T>, d: int, a: seq<T>, b: seq<T>)
  {
    && 0 <= d && d + |a| + |b| == |xs|
    && (forall i :: 0 <= i < |a| ==> a[i] == xs[d + i])
    && (forall i :: 0 <= i < |b| ==> b[i] == xs[d + |a| + i])
  }

  lemma LastNLength<T>(xs: seq<T>, n: nat)
    ensures |LastN(xs, n)| == Min(|xs|, n) && LastN(xs, n) == xs[|xs| - Min(|xs|, n)..]
  {
  }

  lemma IsLastN<T>(xs: seq<T>, tail: seq<T>, n: nat)
    requires |tail| == Min(|xs|, n) && tail == xs[|xs| - |tail|..]
    ensures tail == LastN(xs, n)
  {
  }

  lemma SuffixTail<T>(s: seq<T>, tail: seq<T>)
    requires 0 < |tail| <= |s| && tail == s[|s| - |tail|..]
    ensures tail[1..] == s[|s| - |tail| + 1..]
  {
  }

  function At<K, V>(m: map<K, V>, k: K): Option<V>
  {
    if k in m then Some(m[k]) else None
  }

  lemma SameMap<K(!new), V>(a: map<K, V>, b: map<K, V>)
    requires forall k :: At(a, k) == At(b, k)
    ensures a == b
  {
    forall k
      ensures k in a <==> k in b
      ensures k in a && k in b ==> a[k] == b[k]
    {
      assert At(a, k) == At(b, k);
    }
  }

  /** A finite set of integers has a smallest element. */
  lemma {:induction false} Smallest(s: set<int>) returns (k: int)
    requires s != {}
    ensures k in s && forall j :: j in s ==> k <= j
  {
    assert (forall i :: i !in s) ==> s == {};
    k :| k in s;
    var x, rest := k, s - {k};
    if rest != {} {
      var y := Smallest(rest);
      if y < x {
        k := y;
      }
    }
    forall j | j in s
      ensures k <= j
    {
      assert j == x || j in rest;
    }
  }
}
