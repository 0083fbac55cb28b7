/** The F-test threshold used to stop splitting during approximation: a
    degrees-of-freedom index into a table of F values at 90%, followed by a
    fixed override. */
module FLimit {

  /** F values at 90% for increasing degrees of freedom. */
  const FTable: seq<real> :=
    [9.00, 5.39, 4.11, 3.45, 3.05, 2.78, 2.59, 2.44, 2.32, 1.79, 1.61, 1.51, 1.40]

  /** The limit actually used for approximation, whatever the table says. */
  const OverrideLimit: real := 1.40

  /** The table row chosen for `nDim` columns (inputs plus the output). Every
      admissible dimension selects a table entry; below two columns the index
      is negative and would read before the table. */
  function DofIndex(nDim: int): (r: int)
    ensures nDim >= 2 ==> 0 <= r < |FTable|
    ensures nDim < 2 ==> r < 0
  {
    if nDim > 60 then 12
    else if nDim > 40 then 11
    else if nDim > 30 then 10
    else if nDim > 20 then 9
    else if nDim > 10 then 8
    else nDim - 2
  }

  /** More columns never select an earlier table row. */
  lemma DofIndexMonotone(a: int, b: int)
    requires 2 <= a <= b
    ensures DofIndex(a) <= DofIndex(b)
  {
  }

  /** The table is strictly decreasing. */
  lemma FTableDecreasing(i: int, j: int)
    requires 0 <= i < j < |FTable|
    ensures FTable[i] > FTable[j]
  {
  }

  /** The table-driven limit for `nDim` columns. */
  function TableLimit(nDim: int): (r: real)
    requires nDim >= 2
    ensures r in FTable
    ensures OverrideLimit <= r <= 9.00
  {
    FTable[DofIndex(nDim)]
  }

  /** The table-driven limit never increases as columns are added. */
  lemma TableLimitNonIncreasing(a: int, b: int)
    requires 2 <= a <= b
    ensures TableLimit(a) >= TableLimit(b)
  {
    DofIndexMonotone(a, b);
    if DofIndex(a) < DofIndex(b) {
      FTableDecreasing(DofIndex(a), DofIndex(b));
    }
  }

  /** The limit the approximation phase ends up with: the table is consulted,
      then overridden by 1.4, so the result never depends on `nDim` and is
      never larger (never more reluctant to split) than the table value. */
  function ApproximationLimit(nDim: int): (r: real)
    requires nDim >= 2
    ensures r <= TableLimit(nDim)
    ensures forall m :: 2 <= m ==> r <= TableLimit(m)
    ensures r == FTable[|FTable| - 1]
  {
    OverrideLimit
  }
}
