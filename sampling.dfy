/**
 * Inverse-CDF sampling of a next-state index from one row of the transition table:
 * walk the row left to right, accumulating the probabilities, and stop at the first
 * index whose running sum is at least the draw. If no running sum reaches the draw,
 * no index is chosen.
 */
module Sampling {

  datatype Option<T> = None | Some(value: T)

  /** The running sum after the first `k` entries of `row`, accumulated left to right. */
  function PrefixSum(row: seq<real>, k: nat): real
    requires k <= |row|
  {
    if k == 0 then 0.0 else PrefixSum(row, k - 1) + row[k - 1]
  }

  /** The running sum once entry `m` has been added: the cumulative probability of index `m`. */
  function Cumulative(row: seq<real>, m: nat): real
    requires m < |row|
  {
    PrefixSum(row, m + 1)
  }

  /** The index the walk chooses when it has already passed the entries before `index`. */
  function SelectFrom(row: seq<real>, u: real, index: nat): (r: Option<nat>)
    requires index <= |row|
    ensures r.Some? ==> index <= r.value < |row|
    decreases |row| - index
  {
    if index == |row| then None
    else if u <= Cumulative(row, index) then Some(index)
    else SelectFrom(row, u, index + 1)
  }

  /** The index the cumulative walk over `row` chooses for the draw `u`, if any. */
  function Select(row: seq<real>, u: real): Option<nat>
  {
    SelectFrom(row, u, 0)
  }

  /** The walk of `individualTransition`: returns the chosen index, or None when the loop ends unmatched. */
  method CumulativeDraw(probabilities: seq<real>, number: real) returns (chosen: Option<nat>)
    ensures chosen == Select(probabilities, number)
  {
    var cumulativeProbability := 0.0;
    var index := 0;
    while index < |probabilities|
      invariant index <= |probabilities|
      invariant cumulativeProbability == PrefixSum(probabilities, index)
      invariant SelectFrom(probabilities, number, index) == Select(probabilities, number)
    {
      cumulativeProbability := cumulativeProbability + probabilities[index];
      if number <= cumulativeProbability {
        return Some(index);
      }
      index := index + 1;
    }
    return None;
  }

  /** The walk started at `index` chooses `k` exactly when `k` is the first index from there on whose running sum reaches `u`. */
  lemma {:induction false} SelectFromIsFirst(row: seq<real>, u: real, index: nat, k: nat)
    requires index <= |row|
    ensures SelectFrom(row, u, index) == Some(k) <==>
              index <= k < |row| && u <= Cumulative(row, k) &&
              forall m :: index <= m < k ==> Cumulative(row, m) < u
    decreases |row| - index
  {
    if index < |row| && u > Cumulative(row, index) {
      SelectFromIsFirst(row, u, index + 1, k);
    }
  }

  /** The walk started at `index` chooses nothing exactly when no running sum from there on reaches `u`. */
  lemma {:induction false} SelectFromNone(row: seq<real>, u: real, index: nat)
    requires index <= |row|
    ensures SelectFrom(row, u, index).None? <==>
              forall m :: index <= m < |row| ==> Cumulative(row, m) < u
    decreases |row| - index
  {
    if index < |row| && u > Cumulative(row, index) {
      SelectFromNone(row, u, index + 1);
    }
  }

  /** The chosen index is the least one whose running sum is at least the draw. */
  lemma SelectIsFirst(row: seq<real>, u: real, k: nat)
    ensures Select(row, u) == Some(k) <==>
              k < |row| && u <= Cumulative(row, k) &&
              forall m :: 0 <= m < k ==> Cumulative(row, m) < u
  {
    SelectFromIsFirst(row, u, 0, k);
  }

  /** No index is chosen exactly when every running sum stays below the draw. */
  lemma SelectNone(row: seq<real>, u: real)
    ensures Select(row, u).None? <==> forall m :: 0 <= m < |row| ==> Cumulative(row, m) < u
  {
    SelectFromNone(row, u, 0);
  }

  /** When the whole row sums to at least the draw, the walk always chooses an index. */
  lemma SelectDefinedWhenCovered(row: seq<real>, u: real)
    requires |row| > 0 && u <= PrefixSum(row, |row|)
    ensures Select(row, u).Some?
  {
    SelectNone(row, u);
    assert Cumulative(row, |row| - 1) >= u;
  }

  /** For a positive draw over non-negative probabilities, an index of probability zero is never chosen. */
  lemma SelectSkipsImpossible(row: seq<real>, u: real, k: nat)
    requires forall m :: 0 <= m < |row| ==> row[m] >= 0.0
    requires 0.0 < u
    requires Select(row, u) == Some(k)
    ensures row[k] > 0.0
  {
    SelectIsFirst(row, u, k);
    if k > 0 {
      assert Cumulative(row, k - 1) < u;
      assert Cumulative(row, k - 1) == PrefixSum(row, k);
    }
    assert Cumulative(row, k) == PrefixSum(row, k) + row[k];
  }

  /** A draw of exactly 0 chooses the first index of a non-empty, non-negative row, whatever its probability. */
  lemma ZeroDrawChoosesFirst(row: seq<real>)
    requires |row| > 0 && row[0] >= 0.0
    ensures Select(row, 0.0) == Some(0)
  {
    assert PrefixSum(row, 1) == PrefixSum(row, 0) + row[0];
  }

  /** The five running sums of a row of five entries, written out. */
  lemma PrefixSumsOfFive(row: seq<real>)
    requires |row| == 5
    ensures Cumulative(row, 0) == row[0]
    ensures Cumulative(row, 1) == row[0] + row[1]
    ensures Cumulative(row, 2) == row[0] + row[1] + row[2]
    ensures Cumulative(row, 3) == row[0] + row[1] + row[2] + row[3]
    ensures Cumulative(row, 4) == PrefixSum(row, 5) == row[0] + row[1] + row[2] + row[3] + row[4]
  {
    assert PrefixSum(row, 1) == PrefixSum(row, 0) + row[0] == row[0];
    assert PrefixSum(row, 2) == PrefixSum(row, 1) + row[1];
    assert PrefixSum(row, 3) == PrefixSum(row, 2) + row[2];
    assert PrefixSum(row, 4) == PrefixSum(row, 3) + row[3];
    assert PrefixSum(row, 5) == PrefixSum(row, 4) + row[4];
  }

  /** The walk over a row of five entries, written out: the first of the five running sums that reaches `u`. */
  lemma SelectOfFive(row: seq<real>, u: real)
    requires |row| == 5
    ensures Select(row, u) ==
              if u <= row[0] then Some(0)
              else if u <= row[0] + row[1] then Some(1)
              else if u <= row[0] + row[1] + row[2] then Some(2)
              else if u <= row[0] + row[1] + row[2] + row[3] then Some(3)
              else if u <= row[0] + row[1] + row[2] + row[3] + row[4] then Some(4)
              else None
  {
    PrefixSumsOfFive(row);
    assert SelectFrom(row, u, 4) == if u <= Cumulative(row, 4) then Some(4) else None;
    assert SelectFrom(row, u, 3) == if u <= Cumulative(row, 3) then Some(3) else SelectFrom(row, u, 4);
    assert SelectFrom(row, u, 2) == if u <= Cumulative(row, 2) then Some(2) else SelectFrom(row, u, 3);
    assert SelectFrom(row, u, 1) == if u <= Cumulative(row, 1) then Some(1) else SelectFrom(row, u, 2);
  }
}
