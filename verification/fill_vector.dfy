/** fillvector: the training-vector callback. It picks a TRfile row with a
    uniform draw; when the average ALN is being trained it jitters the input
    coordinates triangularly by up to one epsilon and replaces the output by
    the mean of the ensemble's values at the jittered point. The random draws
    and the ensemble ALNs are parameters. */
module FillVector {
  import opened Common

  /** A uniform draw from [0, 1). */
  predicate IsDraw(u: real)
  {
    0.0 <= u < 1.0
  }

  /** The row chosen by the draw `u`: floor(u * nRows). */
  function RowPick(u: real, nRows: nat): (r: int)
    requires IsDraw(u) && nRows >= 1
    ensures 0 <= r < nRows
  {
    var x := u * (nRows as real);
    assert 0.0 <= x < nRows as real by {
      assert u * (nRows as real) < 1.0 * (nRows as real);
    }
    x.Floor
  }

  /** Coordinate i of `base` moved by (a - b) * eps[i] for the input axes. */
  function Jitter(base: seq<real>, draws: seq<(real, real)>, eps: seq<real>, nDim: nat): (x: seq<real>)
    requires 1 <= nDim == |base| && |draws| >= nDim - 1 && |eps| >= nDim - 1
    ensures |x| == nDim && x[nDim - 1] == base[nDim - 1]
  {
    seq(nDim, i requires 0 <= i < nDim =>
      if i < nDim - 1 then base[i] + (draws[i].0 - draws[i].1) * eps[i] else base[i])
  }

  /** A triangular step built from two draws in [0, 1) moves a coordinate by
      strictly less than its epsilon. */
  lemma JitterWithinEpsilon(base: seq<real>, draws: seq<(real, real)>, eps: seq<real>, nDim: nat)
    requires 1 <= nDim == |base| && |draws| >= nDim - 1 && |eps| >= nDim - 1
    requires forall i :: 0 <= i < nDim - 1 ==> IsDraw(draws[i].0) && IsDraw(draws[i].1)
    ensures forall i :: 0 <= i < nDim - 1 ==>
      Abs(Jitter(base, draws, eps, nDim)[i] - base[i]) <= Abs(eps[i])
    ensures forall i :: 0 <= i < nDim - 1 && eps[i] != 0.0 ==>
      Abs(Jitter(base, draws, eps, nDim)[i] - base[i]) < Abs(eps[i])
  {
    var x := Jitter(base, draws, eps, nDim);
    forall i | 0 <= i < nDim - 1
      ensures Abs(x[i] - base[i]) <= Abs(eps[i])
      ensures eps[i] != 0.0 ==> Abs(x[i] - base[i]) < Abs(eps[i])
    {
      var d := draws[i].0 - draws[i].1;
      assert -1.0 < d < 1.0;
      assert x[i] - base[i] == d * eps[i];
      StepBound(d, eps[i]);
    }
  }

  lemma StepBound(d: real, e: real)
    requires -1.0 < d < 1.0
    ensures Abs(d * e) <= Abs(e)
    ensures e != 0.0 ==> Abs(d * e) < Abs(e)
  {
    if e > 0.0 {
      assert d * e < 1.0 * e;
      assert d * e > -1.0 * e;
    } else if e < 0.0 {
      assert d * e > 1.0 * e;
      assert d * e < -1.0 * e;
    }
  }

  /** The values of the ensemble's ALNs at `x`. */
  function EnsembleValues(ensemble: seq<seq<real> -> real>, x: seq<real>): (v: seq<real>)
    ensures |v| == |ensemble|
    ensures forall n :: 0 <= n < |ensemble| ==> v[n] == ensemble[n](x)
  {
    seq(|ensemble|, n requires 0 <= n < |ensemble| => ensemble[n](x))
  }

  /** The ensemble's average at `x`; a single ALN averages to itself. */
  function Averaged(ensemble: seq<seq<real> -> real>, x: seq<real>): (r: real)
    requires |ensemble| >= 1
    ensures |ensemble| == 1 ==> r == ensemble[0](x)
  {
    var vals := EnsembleValues(ensemble, x);
    assert |vals| == 1 ==> Sum(vals) == vals[0] by {
      if |vals| == 1 {
        assert vals[..0] == [];
      }
    }
    Sum(vals) / (|ensemble| as real)
  }

  /** Bagging symmetry: an ensemble of identical ALNs averages to that ALN. */
  lemma IdenticalEnsembleGivesMember(ensemble: seq<seq<real> -> real>, f: seq<real> -> real, x: seq<real>)
    requires |ensemble| >= 1
    requires forall n :: 0 <= n < |ensemble| ==> ensemble[n] == f
    ensures Averaged(ensemble, x) == f(x)
  {
    var vals := EnsembleValues(ensemble, x);
    SumConstant(vals, f(x));
  }

  /** The average lies between the smallest and largest member value. */
  lemma AveragedBounded(ensemble: seq<seq<real> -> real>, x: seq<real>, lo: real, hi: real)
    requires |ensemble| >= 1
    requires forall n :: 0 <= n < |ensemble| ==> lo <= ensemble[n](x) <= hi
    ensures lo <= Averaged(ensemble, x) <= hi
  {
    MeanBounds(EnsembleValues(ensemble, x), lo, hi);
  }

  /** What fillvector needs besides TRfile: the draws and, for averaging,
      the axis epsilons and the trained ensemble. */
  datatype Request = Request(
    rowDraw: real,                        // picks the row
    averaging: bool,                      // bTrainingAverage
    jitter: seq<(real, real)>,            // two draws per input axis
    eps: seq<real>,                       // epsilon of each input axis
    ensemble: seq<seq<real> -> real>)     // the approximation ALNs

  ghost predicate ValidRequest(q: Request, nDim: nat)
  {
    && IsDraw(q.rowDraw)
    && (q.averaging ==>
          && |q.jitter| >= nDim - 1 && |q.eps| >= nDim - 1 && |q.ensemble| >= 1
          && forall i :: 0 <= i < nDim - 1 ==> IsDraw(q.jitter[i].0) && IsDraw(q.jitter[i].1))
  }

  /** One training vector drawn from the first `nRowsTR` rows of TRfile. */
  function Fill(tr: Table, nRowsTR: nat, nDim: nat, q: Request): (x: seq<real>)
    requires 1 <= nDim && Rectangular(tr, nDim) && 1 <= nRowsTR <= |tr|
    requires ValidRequest(q, nDim)
    ensures |x| == nDim
    // outside averaging the vector is the chosen row, output included
    ensures !q.averaging ==> x == tr[RowPick(q.rowDraw, nRowsTR)]
    // in averaging the inputs are the row's inputs after the triangular step ...
    ensures q.averaging ==>
      x[..nDim - 1] == Jitter(tr[RowPick(q.rowDraw, nRowsTR)], q.jitter, q.eps, nDim)[..nDim - 1]
    // ... so each moves by less than its epsilon ...
    ensures q.averaging ==> forall i :: 0 <= i < nDim - 1 ==>
      Abs(x[i] - tr[RowPick(q.rowDraw, nRowsTR)][i]) <= Abs(q.eps[i])
    ensures q.averaging ==> forall i :: 0 <= i < nDim - 1 && q.eps[i] != 0.0 ==>
      Abs(x[i] - tr[RowPick(q.rowDraw, nRowsTR)][i]) < Abs(q.eps[i])
    // ... and the output is the ensemble's average at the jittered inputs
    // with the row's own output in the last place
    ensures q.averaging ==>
      x[nDim - 1] == Averaged(q.ensemble, x[..nDim - 1] + [tr[RowPick(q.rowDraw, nRowsTR)][nDim - 1]])
  {
    var row := tr[RowPick(q.rowDraw, nRowsTR)];
    if !q.averaging then row
    else
      var j := Jitter(row, q.jitter, q.eps, nDim);
      JitterWithinEpsilon(row, q.jitter, q.eps, nDim);
      assert j == j[..nDim - 1] + [row[nDim - 1]];
      j[nDim - 1 := Averaged(q.ensemble, j)]
  }
}
