/**
 Interval binning as performed by a right-closed `cut` with `include_lowest`:
 edges e0 < e1 < ... < en define the bins [e0, e1], (e1, e2], ..., (e(n-1), en],
 and the k-th label is attached to the k-th bin in ascending order. A value
 outside [e0, en] falls in no bin; the page then fails when it converts the
 result to integers, so no default bucket exists.
 */
module Binning {
  import opened Wrappers

  predicate Increasing(edges: seq<int>) {
    forall i, j :: 0 <= i < j < |edges| ==> edges[i] < edges[j]
  }

  /** Five increasing edges, delimiting the four bins that get the labels 4, 3, 2, 1. */
  type Edges = e: seq<int> | |e| == 5 && Increasing(e) witness [0, 1, 2, 3, 4]

  /** x lies in bin k: right-closed, and the lowest bin also closed on the left. */
  predicate InBin(x: real, edges: seq<int>, k: nat)
    requires k + 1 < |edges|
  {
    && (if k == 0 then edges[0] as real <= x else edges[k] as real < x)
    && x <= edges[k + 1] as real
  }

  /** Scan the bins upward from bin k, knowing x is above the left edge of bin k. */
  function Scan(x: real, edges: seq<int>, k: nat): (r: Option<nat>)
    requires Increasing(edges) && 2 <= |edges| && k < |edges|
    requires edges[0] as real <= x
    requires k == 0 || edges[k] as real < x
    ensures r.Some? <==> x <= edges[|edges| - 1] as real
    ensures r.Some? ==> k <= r.value && r.value + 1 < |edges| && InBin(x, edges, r.value)
    decreases |edges| - k
  {
    if k + 1 == |edges| then None
    else if x <= edges[k + 1] as real then Some(k)
    else Scan(x, edges, k + 1)
  }

  /** The index of the bin holding x, or None when x is outside every bin. */
  function FindBin(x: real, edges: seq<int>): (r: Option<nat>)
    requires Increasing(edges)
    ensures r.Some? <==> 2 <= |edges| && edges[0] as real <= x <= edges[|edges| - 1] as real
    ensures r.Some? ==> r.value + 1 < |edges| && InBin(x, edges, r.value)
  {
    if |edges| < 2 || x < edges[0] as real then None else Scan(x, edges, 0)
  }

  /** Bins do not overlap, so the bin FindBin reports is the only one holding x. */
  lemma BinUnique(x: real, edges: seq<int>, j: nat, k: nat)
    requires Increasing(edges) && j + 1 < |edges| && k + 1 < |edges|
    requires InBin(x, edges, j) && InBin(x, edges, k)
    ensures j == k
  {
  }

  /** A larger raw value never lands in a lower bin. */
  lemma FindBinMonotone(x: real, y: real, edges: seq<int>)
    requires Increasing(edges)
    requires x <= y
    requires FindBin(x, edges).Some? && FindBin(y, edges).Some?
    ensures FindBin(x, edges).value <= FindBin(y, edges).value
  {
  }

  /** The labels `[4, 3, 2, 1]`, attached to the four bins in ascending order. */
  const ScoreLabels: seq<int> := [4, 3, 2, 1]

  /** The label of the bin holding x under five edges, or None outside the edges. */
  function Score(x: real, edges: Edges): (r: Option<int>)
    ensures r.Some? <==> edges[0] as real <= x <= edges[4] as real
    ensures r.Some? ==> 1 <= r.value <= 4
    ensures r.Some? ==> InBin(x, edges, 4 - r.value)
  {
    match FindBin(x, edges)
    case None => None
    case Some(k) => Some(ScoreLabels[k])
  }

  /** Labels are positional: a larger raw value never gets a larger score. */
  lemma ScoreAntitone(x: real, y: real, edges: Edges)
    requires x <= y
    requires Score(x, edges).Some? && Score(y, edges).Some?
    ensures Score(y, edges).value <= Score(x, edges).value
  {
    FindBinMonotone(x, y, edges);
  }
}
