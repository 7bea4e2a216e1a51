/** Bucketing and counting as the summary uses them: `pd.cut` with its default
    right-closed intervals and no lowest-edge inclusion, which maps a value to
    the index of the interval `(bins[k], bins[k+1]]` holding it, and
    `value_counts`, which counts how often each index occurs. A missing value,
    or one outside `(bins[0], bins[|bins|-1]]`, gets no index and is counted
    nowhere. */
module Buckets {
  import opened Wrappers

  ghost predicate StrictlyIncreasing(bins: seq<real>) {
    forall i, j :: 0 <= i < j < |bins| ==> bins[i] < bins[j]
  }

  /** The interval search of `pd.cut` from interval `k` on, for a value above `bins[k]`. */
  function CutFrom(bins: seq<real>, x: real, k: nat): (r: Option<nat>)
    requires k < |bins| && bins[k] < x
    ensures r.Some? ==> k <= r.value && r.value + 1 < |bins| && bins[r.value] < x <= bins[r.value + 1]
    ensures r.None? ==> x > bins[|bins| - 1]
    decreases |bins| - k
  {
    if k + 1 == |bins| then None
    else if x <= bins[k + 1] then Some(k)
    else CutFrom(bins, x, k + 1)
  }

  /** `pd.cut(x, bins)` for one value, as the index of its interval. */
  function Cut(bins: seq<real>, x: Option<real>): (r: Option<nat>)
    requires StrictlyIncreasing(bins)
    ensures r.Some? <==> x.Some? && |bins| >= 2 && bins[0] < x.value <= bins[|bins| - 1]
    ensures r.Some? ==> r.value + 1 < |bins| && bins[r.value] < x.value <= bins[r.value + 1]
  {
    match x
    case None => None
    case Some(v) =>
      if |bins| == 0 || v <= bins[0] then None
      else
        var r := CutFrom(bins, v, 0);
        assert r.Some? ==> bins[r.value + 1] <= bins[|bins| - 1];
        r
  }

  /** The intervals do not overlap, so a value lies in interval `k` exactly when `Cut` says `k`. */
  lemma CutExact(bins: seq<real>, x: real, k: nat)
    requires StrictlyIncreasing(bins)
    ensures Cut(bins, Some(x)) == Some(k) <==> k + 1 < |bins| && bins[k] < x <= bins[k + 1]
  {
    var r := Cut(bins, Some(x));
    if k + 1 < |bins| && bins[k] < x <= bins[k + 1] {
      assert bins[0] <= bins[k] && bins[k + 1] <= bins[|bins| - 1];
    }
  }

  /** `pd.cut` over a column. */
  function CutAll(bins: seq<real>, xs: seq<Option<real>>): (codes: seq<Option<nat>>)
    requires StrictlyIncreasing(bins)
    ensures |codes| == |xs| && forall i :: 0 <= i < |xs| ==> codes[i] == Cut(bins, xs[i])
  {
    seq(|xs|, i requires 0 <= i < |xs| => Cut(bins, xs[i]))
  }

  /** How many codes equal `Some(k)`. */
  function Occurrences(codes: seq<Option<nat>>, k: nat): nat {
    if codes == [] then 0
    else Occurrences(codes[..|codes| - 1], k) + (if codes[|codes| - 1] == Some(k) then 1 else 0)
  }

  /** How many codes are `Some(k)` with `k < n`. */
  function CountBelow(codes: seq<Option<nat>>, n: nat): nat {
    if codes == [] then 0
    else CountBelow(codes[..|codes| - 1], n) + (if codes[|codes| - 1].Some? && codes[|codes| - 1].value < n then 1 else 0)
  }

  /** The first `n` counts added up. */
  function SumOccurrences(codes: seq<Option<nat>>, n: nat): nat {
    if n == 0 then 0 else SumOccurrences(codes, n - 1) + Occurrences(codes, n - 1)
  }

  /** `value_counts` over the indices `0 .. n-1`, filled as the counting loop goes. */
  method ValueCounts(codes: seq<Option<nat>>, n: nat) returns (counts: seq<nat>)
    ensures |counts| == n
    ensures forall k :: 0 <= k < n ==> counts[k] == Occurrences(codes, k)
  {
    counts := seq(n, k => 0);
    var i := 0;
    while i < |codes|
      invariant 0 <= i <= |codes|
      invariant |counts| == n
      invariant forall k :: 0 <= k < n ==> counts[k] == Occurrences(codes[..i], k)
    {
      assert codes[..i + 1][..i] == codes[..i];
      if codes[i].Some? && codes[i].value < n {
        var c := codes[i].value;
        counts := counts[c := counts[c] + 1];
      }
      i := i + 1;
    }
    assert codes[..i] == codes;
  }

  /** Every code counts in at most one of the first `n` buckets. */
  lemma {:induction false} SumOfIndicators(codes: seq<Option<nat>>, n: nat)
    requires codes != []
    ensures SumOccurrences(codes, n)
         == SumOccurrences(codes[..|codes| - 1], n)
          + (if codes[|codes| - 1].Some? && codes[|codes| - 1].value < n then 1 else 0)
  {
    if n > 0 {
      SumOfIndicators(codes, n - 1);
    }
  }

  /** The bucket counts add up to the number of codes that fall in some bucket. */
  lemma {:induction false} SumOccurrencesIsCountBelow(codes: seq<Option<nat>>, n: nat)
    ensures SumOccurrences(codes, n) == CountBelow(codes, n)
  {
    if codes == [] {
      ZeroOccurrencesOfEmpty(n);
    } else {
      SumOfIndicators(codes, n);
      SumOccurrencesIsCountBelow(codes[..|codes| - 1], n);
    }
  }

  lemma {:induction false} ZeroOccurrencesOfEmpty(n: nat)
    ensures SumOccurrences([], n) == 0
  {
    if n > 0 { ZeroOccurrencesOfEmpty(n - 1); }
  }

  lemma {:induction false} CountBelowAtMostLength(codes: seq<Option<nat>>, n: nat)
    ensures CountBelow(codes, n) <= |codes|
  {
    if codes != [] { CountBelowAtMostLength(codes[..|codes| - 1], n); }
  }

  /** So the bucket counts never add up to more than the number of values. */
  lemma BucketCountsAtMostTotal(codes: seq<Option<nat>>, n: nat)
    ensures SumOccurrences(codes, n) <= |codes|
  {
    SumOccurrencesIsCountBelow(codes, n);
    CountBelowAtMostLength(codes, n);
  }

  /** With no defined value, every bucket count is zero. */
  lemma {:induction false} NoValuesNoCounts(bins: seq<real>, xs: seq<Option<real>>, k: nat)
    requires StrictlyIncreasing(bins)
    requires forall i :: 0 <= i < |xs| ==> xs[i].None?
    ensures Occurrences(CutAll(bins, xs), k) == 0
  {
    if xs != [] {
      var init := xs[..|xs| - 1];
      assert CutAll(bins, xs)[..|xs| - 1] == CutAll(bins, init);
      NoValuesNoCounts(bins, init, k);
    }
  }
}
