/** The start values handed from linear regression to every later ALN: the
    centroid and weights of the single fitted linear piece, with the centroid
    folded into the bias weight W[0].

    A linear piece stores weights W[0..nDim] and a centroid C[0..nDim-1]. The
    weight on input axis m is W[m+1]; C[nDim-1] is the piece's value at its
    centroid, and W[nDim] is the -1 weight on the output. */
module LinearSeed {

  /** Sum over the first `n` input axes of W[m+1] * x[m]. */
  function Weighted(w: seq<real>, x: seq<real>, n: nat): real
    requires n < |w| && n <= |x|
  {
    if n == 0 then 0.0 else Weighted(w, x, n - 1) + w[n] * x[n - 1]
  }

  /** Sum over the first `n` input axes of W[m+1] * (x[m] - C[m]). */
  function Centred(w: seq<real>, c: seq<real>, x: seq<real>, n: nat): real
    requires n < |w| && n <= |c| && n <= |x|
  {
    if n == 0 then 0.0 else Centred(w, c, x, n - 1) + w[n] * (x[n - 1] - c[n - 1])
  }

  /** The value of a linear piece in centroid form at input `x`. */
  function PieceValue(w: seq<real>, c: seq<real>, x: seq<real>, nDim: nat): real
    requires 1 <= nDim && |w| == nDim + 1 && |c| == nDim && |x| >= nDim - 1
  {
    c[nDim - 1] + Centred(w, c, x, nDim - 1)
  }

  /** The value of a linear piece in bias form at input `x`. */
  function BiasValue(w: seq<real>, x: seq<real>, nDim: nat): real
    requires 1 <= nDim && |w| == nDim + 1 && |x| >= nDim - 1
  {
    w[0] + Weighted(w, x, nDim - 1)
  }

  /** Centring distributes: sum W(x - C) = sum W x - sum W C. */
  lemma {:induction false} CentredSplits(w: seq<real>, c: seq<real>, x: seq<real>, n: nat)
    requires n < |w| && n <= |c| && n <= |x|
    ensures Centred(w, c, x, n) == Weighted(w, x, n) - Weighted(w, c, n)
  {
    if n > 0 {
      CentredSplits(w, c, x, n - 1);
    }
  }

  /** Weighted sums only read the weights W[1..n]. */
  lemma {:induction false} WeightedFrame(w: seq<real>, w': seq<real>, x: seq<real>, n: nat)
    requires n < |w| && n < |w'| && n <= |x|
    requires forall m :: 1 <= m <= n ==> w[m] == w'[m]
    ensures Weighted(w, x, n) == Weighted(w', x, n)
  {
    if n > 0 {
      WeightedFrame(w, w', x, n - 1);
    }
  }

  /** Copies the fitted piece and folds its centroid into W[0]; the bias form
      agrees with the centroid form at every input. */
  method CompressSeed(leafW: seq<real>, leafC: seq<real>, nDim: nat)
    returns (lrw: seq<real>, lrc: seq<real>)
    requires 1 <= nDim && |leafW| == nDim + 1 && |leafC| == nDim
    ensures |lrw| == nDim + 1 && lrc == leafC
    ensures forall m :: 1 <= m < nDim ==> lrw[m] == leafW[m]
    ensures lrw[nDim] == -1.0
    ensures forall x :: |x| >= nDim - 1 ==> BiasValue(lrw, x, nDim) == PieceValue(leafW, leafC, x, nDim)
  {
    lrc := leafC;
    lrw := [leafC[nDim - 1]] + leafW[1..nDim] + [-1.0];
    var w0 := leafC[nDim - 1];
    var m := 0;
    while m < nDim - 1
      invariant 0 <= m <= nDim - 1
      invariant w0 == leafC[nDim - 1] - Weighted(leafW, leafC, m)
    {
      w0 := w0 - lrw[m + 1] * lrc[m];
      m := m + 1;
    }
    lrw := lrw[0 := w0];
    forall x | |x| >= nDim - 1
      ensures BiasValue(lrw, x, nDim) == PieceValue(leafW, leafC, x, nDim)
    {
      WeightedFrame(lrw, leafW, x, nDim - 1);
      CentredSplits(leafW, leafC, x, nDim - 1);
    }
  }
}
