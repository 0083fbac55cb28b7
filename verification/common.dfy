/** Shared vocabulary: optional values, fallible results, row-aligned tables of
    reals and the running sums the training operations accumulate. */
module Common {

  /** A value that may be absent, such as a null ALNNODE* entry of apLFN. */
  datatype Option<+T> = None | Some(value: T)

  /** The outcome of an operation that can stop the run. */
  datatype Result<+T, +E> = Ok(value: T) | Err(error: E)

  /** A data file: rows of doubles. */
  type Table = seq<seq<real>>

  /** Every row has exactly `width` columns. */
  ghost predicate Rectangular(t: Table, width: int)
  {
    forall k :: 0 <= k < |t| ==> |t[k]| == width
  }

  function Abs(x: real): (r: real)
    ensures r >= 0.0
    ensures r == x || r == -x
  {
    if x < 0.0 then -x else x
  }

  /** The identity. `Sq` writes x * x as x * Copy(x), a product of two
      named factors, so that the sign lemmas on products apply to it. */
  function Copy(x: real): (r: real)
    ensures r == x
  {
    x
  }

  lemma PositiveProduct(a: real, b: real)
    requires a > 0.0 && b > 0.0
    ensures a * b > 0.0
  {
  }

  lemma NegativeProduct(a: real, b: real)
    requires a < 0.0 && b < 0.0
    ensures a * b > 0.0
  {
  }

  /** The square of a real, non-negative and zero only at zero. */
  function Sq(x: real): (r: real)
    ensures r >= 0.0
    ensures x != 0.0 ==> r > 0.0
  {
    var y := Copy(x);
    if x > 0.0 then PositiveProduct(x, y); x * y
    else if x < 0.0 then NegativeProduct(x, y); x * y
    else 0.0
  }

  lemma SqIsProduct(x: real)
    ensures Sq(x) == x * x
  {
  }

  /** Sum of a sequence, accumulated front to back as the loops do. */
  function Sum(s: seq<real>): real
  {
    if |s| == 0 then 0.0 else Sum(s[..|s| - 1]) + s[|s| - 1]
  }

  /** Sum of squares of a sequence. */
  function SumSq(s: seq<real>): real
  {
    if |s| == 0 then 0.0 else SumSq(s[..|s| - 1]) + Sq(s[|s| - 1])
  }

  /** Appending a term adds it to the sum and its square to the sum of squares. */
  lemma SumAppend(s: seq<real>, x: real)
    ensures Sum(s + [x]) == Sum(s) + x
    ensures SumSq(s + [x]) == SumSq(s) + Sq(x)
  {
    assert (s + [x])[..|s|] == s;
  }

  /** Arithmetic mean; the caller guarantees at least one value. */
  function Mean(s: seq<real>): real
    requires |s| > 0
  {
    Sum(s) / (|s| as real)
  }

  /** A sum of squares is never negative. */
  lemma {:induction false} SumSqNonNegative(s: seq<real>)
    ensures SumSq(s) >= 0.0
  {
    if |s| > 0 {
      SumSqNonNegative(s[..|s| - 1]);
    }
  }

  /** A sum of squares vanishes exactly when every term does. */
  lemma {:induction false} SumSqZeroIff(s: seq<real>)
    ensures SumSq(s) == 0.0 <==> forall k :: 0 <= k < |s| ==> s[k] == 0.0
  {
    if |s| > 0 {
      var init := s[..|s| - 1];
      var last := s[|s| - 1];
      SumSqZeroIff(init);
      SumSqNonNegative(init);
      if SumSq(s) == 0.0 {
        assert last == 0.0;
        assert forall k :: 0 <= k < |init| ==> init[k] == 0.0;
        forall k | 0 <= k < |s| ensures s[k] == 0.0 {
          if k < |s| - 1 { assert s[k] == init[k]; }
        }
      }
      if forall k :: 0 <= k < |s| ==> s[k] == 0.0 {
        forall k | 0 <= k < |init| ensures init[k] == 0.0 { assert init[k] == s[k]; }
      }
    }
  }

  /** The sum of `n` copies of `v` is `n * v`. */
  lemma {:induction false} SumConstant(s: seq<real>, v: real)
    requires forall k :: 0 <= k < |s| ==> s[k] == v
    ensures Sum(s) == (|s| as real) * v
  {
    if |s| > 0 {
      SumConstant(s[..|s| - 1], v);
    }
  }

  /** A sum is bounded by the bounds of its terms. */
  lemma {:induction false} SumBounds(s: seq<real>, lo: real, hi: real)
    requires forall k :: 0 <= k < |s| ==> lo <= s[k] <= hi
    ensures (|s| as real) * lo <= Sum(s) <= (|s| as real) * hi
  {
    if |s| > 0 {
      SumBounds(s[..|s| - 1], lo, hi);
    }
  }

  /** The mean of values that all lie in [lo, hi] lies in [lo, hi]. */
  lemma MeanBounds(s: seq<real>, lo: real, hi: real)
    requires |s| > 0
    requires forall k :: 0 <= k < |s| ==> lo <= s[k] <= hi
    ensures lo <= Mean(s) <= hi
  {
    SumBounds(s, lo, hi);
    var n := |s| as real;
    assert Sum(s) / n >= lo by {
      assert n * lo <= Sum(s);
    }
    assert Sum(s) / n <= hi by {
      assert Sum(s) <= n * hi;
    }
  }
}
