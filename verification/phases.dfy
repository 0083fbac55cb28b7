/** How the training file TRfile and the noise-variance file VARfile are
    prepared from the full training/variance file TVfile before each stage.
    All three are row-aligned tables of nDim columns; column nDim-1 is the
    output. */
module Phases {
  import opened Common

  /** The stage selector `nChoose`. */
  const LinearRegression: int := 0
  const Tessellation: int := 1
  const Approximation: int := 2
  const Bagging: int := 3

  /** Number of `true` entries in `s`. */
  function CountTrue(s: seq<bool>): (r: nat)
    ensures r <= |s|
  {
    if |s| == 0 then 0 else CountTrue(s[..|s| - 1]) + (if s[|s| - 1] then 1 else 0)
  }

  /** The next free front slot once rows 0 .. i-1 are placed: the number
      of those rows that went to the front. */
  function Front(toFront: seq<bool>, i: nat): (r: nat)
    requires i <= |toFront|
    ensures r <= i
  {
    if i == 0 then 0 else Front(toFront, i - 1) + (if toFront[i - 1] then 1 else 0)
  }

  /** The front cursor counts the `true` entries of the prefix. */
  lemma {:induction false} FrontCounts(toFront: seq<bool>, i: nat)
    requires i <= |toFront|
    ensures Front(toFront, i) == CountTrue(toFront[..i])
  {
    if i > 0 {
      FrontCounts(toFront, i - 1);
      assert toFront[..i][..i - 1] == toFront[..i - 1];
    }
  }

  /** The next free back slot once rows 0 .. i-1 are placed. */
  function Back(toFront: seq<bool>, i: nat): int
    requires i <= |toFront|
  {
    |toFront| - 1 - (i - Front(toFront, i))
  }

  /** Where row `i` of TVfile lands: the next front slot when it goes to the
      front, the next back slot otherwise. */
  function Destination(toFront: seq<bool>, i: nat): (d: int)
    requires i < |toFront|
    ensures 0 <= d < |toFront|
  {
    if toFront[i] then Front(toFront, i) else Back(toFront, i)
  }

  /** With every row going to the front, the front cursor is the row index. */
  lemma {:induction false} FrontAll(toFront: seq<bool>, i: nat)
    requires i <= |toFront|
    requires forall k :: 0 <= k < |toFront| ==> toFront[k]
    ensures Front(toFront, i) == i
  {
    if i > 0 {
      FrontAll(toFront, i - 1);
    }
  }

  /** `base` after rows 0 .. i-1 of `tv` have been written to their
      destinations. */
  ghost function Placed(base: Table, tv: Table, toFront: seq<bool>, i: nat): (r: Table)
    requires |base| == |tv| == |toFront| && i <= |tv|
    ensures |r| == |base|
  {
    if i == 0 then base
    else Placed(base, tv, toFront, i - 1)[Destination(toFront, i - 1) := tv[i - 1]]
  }

  /** The free slots form the window [Front, Back], which only shrinks. */
  lemma {:induction false} WindowShrinks(toFront: seq<bool>, j: nat, i: nat)
    requires j <= i <= |toFront|
    ensures Front(toFront, j) <= Front(toFront, i) && Back(toFront, i) <= Back(toFront, j)
  {
    if j < i {
      WindowShrinks(toFront, j, i - 1);
    }
  }

  /** A placed row lies outside every later window. */
  lemma DestinationOutside(toFront: seq<bool>, k: nat, i: nat)
    requires k < i <= |toFront|
    ensures Destination(toFront, k) < Front(toFront, i) || Back(toFront, i) < Destination(toFront, k)
  {
    WindowShrinks(toFront, k + 1, i);
  }

  /** Inside the window nothing has been written; outside it the slots hold
      the same rows whatever the starting table. */
  lemma {:induction false} PlacedWindow(a: Table, b: Table, tv: Table, toFront: seq<bool>, i: nat)
    requires |a| == |b| == |tv| == |toFront| && i <= |tv|
    ensures forall q :: 0 <= q < |a| && Front(toFront, i) <= q <= Back(toFront, i) ==>
      Placed(a, tv, toFront, i)[q] == a[q]
    ensures forall q :: 0 <= q < |a| && (q < Front(toFront, i) || Back(toFront, i) < q) ==>
      Placed(a, tv, toFront, i)[q] == Placed(b, tv, toFront, i)[q]
  {
    if i > 0 {
      PlacedWindow(a, b, tv, toFront, i - 1);
    }
  }

  /** Every placed row sits at its destination. */
  lemma {:induction false} PlacedRows(base: Table, tv: Table, toFront: seq<bool>, i: nat)
    requires |base| == |tv| == |toFront| && i <= |tv|
    ensures forall k :: 0 <= k < i ==> Placed(base, tv, toFront, i)[Destination(toFront, k)] == tv[k]
  {
    if i > 0 {
      PlacedRows(base, tv, toFront, i - 1);
      forall k | 0 <= k < i - 1
        ensures Destination(toFront, k) != Destination(toFront, i - 1)
      {
        DestinationOutside(toFront, k, i - 1);
      }
    }
  }

  /** The LINEAR_REGRESSION fill: each TVfile row goes either to the front
      (index tmp0, counting up) or to the back (index tmp1, counting down) of
      both TRfile and VARfile. The two cursors meet exactly, every slot is
      filled, both files receive the same rows, and when every row goes to
      the front both files equal TVfile. */
  method FrontBackFill(tv: Table, oldTr: Table, oldVar: Table, toFront: seq<bool>)
    returns (tr: Table, vr: Table, tmp0: int, tmp1: int)
    requires |oldTr| == |tv| && |oldVar| == |tv| && |toFront| == |tv|
    ensures tmp1 == tmp0 - 1
    ensures tmp0 == CountTrue(toFront)
    ensures |tr| == |tv| && |vr| == |tv|
    ensures tr == vr
    ensures forall i :: 0 <= i < |tv| ==> tr[Destination(toFront, i)] == tv[i]
    ensures (forall i :: 0 <= i < |tv| ==> toFront[i]) ==> tr == tv
  {
    var n := |tv|;
    tr, vr := oldTr, oldVar;
    tmp0, tmp1 := 0, n - 1;
    var i := 0;
    while i < n
      invariant 0 <= i <= n
      invariant tmp0 == Front(toFront, i) && tmp1 == Back(toFront, i)
      invariant tr == Placed(oldTr, tv, toFront, i) && vr == Placed(oldVar, tv, toFront, i)
    {
      if toFront[i] {
        tr := tr[tmp0 := tv[i]];
        vr := vr[tmp0 := tv[i]];
        tmp0 := tmp0 + 1;
      } else {
        tr := tr[tmp1 := tv[i]];
        vr := vr[tmp1 := tv[i]];
        tmp1 := tmp1 - 1;
      }
      i := i + 1;
    }
    WindowClosed(toFront, n);
    PlacedRows(oldTr, tv, toFront, n);
    CursorsMet(tv, oldTr, oldVar, toFront, n);
    if forall i :: 0 <= i < n ==> toFront[i] {
      AllFrontCopies(tv, oldTr, toFront, n);
    }
  }

  /** Once every row is placed the window is empty: the cursors have met. */
  lemma WindowClosed(toFront: seq<bool>, n: nat)
    requires n == |toFront|
    ensures Front(toFront, n) == CountTrue(toFront)
    ensures Back(toFront, n) == Front(toFront, n) - 1
  {
    FrontCounts(toFront, n);
    assert toFront[..n] == toFront;
  }

  /** Once every row is placed every slot is filled, so both files hold the
      same rows whatever they held before. */
  lemma CursorsMet(tv: Table, tr0: Table, var0: Table, toFront: seq<bool>, n: nat)
    requires n == |tv| && |tr0| == n && |var0| == n && |toFront| == n
    ensures Placed(tr0, tv, toFront, n) == Placed(var0, tv, toFront, n)
  {
    var t, v := Placed(tr0, tv, toFront, n), Placed(var0, tv, toFront, n);
    WindowClosed(toFront, n);
    PlacedWindow(tr0, var0, tv, toFront, n);
    assert forall q :: 0 <= q < n ==> t[q] == v[q];
  }

  /** When every row goes to the front, the fill copies TVfile. */
  lemma AllFrontCopies(tv: Table, tr0: Table, toFront: seq<bool>, n: nat)
    requires n == |tv| && |tr0| == n && |toFront| == n
    requires forall i :: 0 <= i < n ==> toFront[i]
    ensures Placed(tr0, tv, toFront, n) == tv
  {
    var t := Placed(tr0, tv, toFront, n);
    PlacedRows(tr0, tv, toFront, n);
    AllFrontKeepsOrder(toFront);
    assert forall q :: 0 <= q < n ==> t[q] == tv[q];
  }

  /** When every row goes to the front, every row stays where it is. */
  lemma AllFrontKeepsOrder(toFront: seq<bool>)
    ensures (forall i :: 0 <= i < |toFront| ==> toFront[i]) ==>
      forall i :: 0 <= i < |toFront| ==> Destination(toFront, i) == i
  {
    if forall i :: 0 <= i < |toFront| ==> toFront[i] {
      forall i | 0 <= i < |toFront| ensures Destination(toFront, i) == i {
        FrontAll(toFront, i);
      }
    }
  }

  /** Sum over the input axes of the squared half-range (|max - min| / 2)^2.
      It vanishes, leaving the flattening factor undefined, exactly when every
      input axis has a zero range. */
  function HalfRangeSum(minVar: seq<real>, maxVar: seq<real>, n: nat): (r: real)
    requires n <= |minVar| && n <= |maxVar|
    ensures r >= 0.0
  {
    if n == 0 then 0.0
    else HalfRangeSum(minVar, maxVar, n - 1) + Sq(Abs(maxVar[n - 1] - minVar[n - 1]) / 2.0)
  }

  /** The sum of squared half-ranges is zero exactly when every input axis
      has max == min. */
  lemma {:induction false} HalfRangeSumZero(minVar: seq<real>, maxVar: seq<real>, n: nat)
    requires n <= |minVar| && n <= |maxVar|
    ensures HalfRangeSum(minVar, maxVar, n) == 0.0 <==> forall j :: 0 <= j < n ==> maxVar[j] == minVar[j]
  {
    if n > 0 {
      HalfRangeSumZero(minVar, maxVar, n - 1);
      var d := Abs(maxVar[n - 1] - minVar[n - 1]) / 2.0;
      assert Sq(d) == 0.0 <==> d == 0.0;
    }
  }

  /** Differences of the first `n` coordinates of `x` from `c`. */
  function Offsets(x: seq<real>, c: seq<real>, n: nat): (d: seq<real>)
    requires n <= |x| && n <= |c|
    ensures |d| == n
    ensures forall j :: 0 <= j < n ==> d[j] == x[j] - c[j]
  {
    seq(n, j requires 0 <= j < n => x[j] - c[j])
  }

  /** The paraboloid target of one row: `flatten` times the squared distance
      of its input coordinates from the regression centroid `lrc`. */
  function ParaboloidValue(row: seq<real>, lrc: seq<real>, nDim: nat, flatten: real): (r: real)
    requires 1 <= nDim && nDim - 1 <= |row| && nDim - 1 <= |lrc|
    ensures flatten >= 0.0 ==> r >= 0.0
  {
    var q := SumSq(Offsets(row, lrc, nDim - 1));
    SumSqNonNegative(Offsets(row, lrc, nDim - 1));
    q * flatten
  }

  /** The paraboloid is non-negative and touches zero exactly at the centroid
      (for any positive flattening factor). */
  lemma ParaboloidZeroAtCentroid(row: seq<real>, lrc: seq<real>, nDim: nat, flatten: real)
    requires 1 <= nDim && nDim - 1 <= |row| && nDim - 1 <= |lrc|
    requires flatten > 0.0
    ensures ParaboloidValue(row, lrc, nDim, flatten) >= 0.0
    ensures ParaboloidValue(row, lrc, nDim, flatten) == 0.0 <==> row[..nDim - 1] == lrc[..nDim - 1]
  {
    var d := Offsets(row, lrc, nDim - 1);
    SumSqNonNegative(d);
    SumSqZeroIff(d);
    if row[..nDim - 1] == lrc[..nDim - 1] {
      forall j | 0 <= j < nDim - 1 ensures d[j] == 0.0 {
        assert row[..nDim - 1][j] == lrc[..nDim - 1][j];
      }
    }
    if SumSq(d) == 0.0 {
      assert row[..nDim - 1] == lrc[..nDim - 1];
    }
  }

  /** The TESSELLATION target: every row's output replaced by the paraboloid
      value, with flatten = 1 / HalfRangeSum. */
  function Tessellate(tr: Table, lrc: seq<real>, minVar: seq<real>, maxVar: seq<real>, nDim: nat): (r: Table)
    requires 1 <= nDim && Rectangular(tr, nDim)
    requires nDim - 1 <= |lrc| && nDim - 1 <= |minVar| && nDim - 1 <= |maxVar|
    requires HalfRangeSum(minVar, maxVar, nDim - 1) > 0.0
    ensures |r| == |tr| && Rectangular(r, nDim)
    ensures forall i, j :: 0 <= i < |tr| && 0 <= j < nDim - 1 ==> r[i][j] == tr[i][j]
  {
    var flatten := 1.0 / HalfRangeSum(minVar, maxVar, nDim - 1);
    seq(|tr|, i requires 0 <= i < |tr| => tr[i][nDim - 1 := ParaboloidValue(tr[i], lrc, nDim, flatten)])
  }

  /** Every TESSELLATION target is non-negative and is zero exactly at rows
      whose inputs sit on the centroid. */
  lemma TessellationTargets(tr: Table, lrc: seq<real>, minVar: seq<real>, maxVar: seq<real>, nDim: nat)
    requires 1 <= nDim && Rectangular(tr, nDim)
    requires nDim - 1 <= |lrc| && nDim - 1 <= |minVar| && nDim - 1 <= |maxVar|
    requires HalfRangeSum(minVar, maxVar, nDim - 1) > 0.0
    ensures forall i :: 0 <= i < |tr| ==> Tessellate(tr, lrc, minVar, maxVar, nDim)[i][nDim - 1] >= 0.0
    ensures forall i :: 0 <= i < |tr| ==>
      (Tessellate(tr, lrc, minVar, maxVar, nDim)[i][nDim - 1] == 0.0 <==> tr[i][..nDim - 1] == lrc[..nDim - 1])
  {
    var flatten := 1.0 / HalfRangeSum(minVar, maxVar, nDim - 1);
    assert flatten > 0.0;
    var t := Tessellate(tr, lrc, minVar, maxVar, nDim);
    forall i | 0 <= i < |tr|
      ensures t[i][nDim - 1] >= 0.0
      ensures t[i][nDim - 1] == 0.0 <==> tr[i][..nDim - 1] == lrc[..nDim - 1]
    {
      assert t[i][nDim - 1] == ParaboloidValue(tr[i], lrc, nDim, flatten);
      ParaboloidZeroAtCentroid(tr[i], lrc, nDim, flatten);
    }
  }

  /** The APPROXIMATION fill: TVfile's cells copied into TRfile, so TRfile
      becomes TVfile. */
  function ApproximationFill(tv: Table, tr: Table, nDim: nat): (r: Table)
    requires |tr| == |tv| && Rectangular(tv, nDim) && Rectangular(tr, nDim)
    ensures r == tv
  {
    var r := seq(|tr|, i requires 0 <= i < |tr| =>
      seq(nDim, j requires 0 <= j < nDim => tv[i][j]));
    assert forall i :: 0 <= i < |tv| ==> r[i] == tv[i];
    r
  }

  /** The BAGGING rescale: each noise-variance sample divided by the number of
      ALNs averaged; multiplying back recovers it and inputs are untouched. */
  function BagVariance(vr: Table, nDim: nat, nALNs: int): (r: Table)
    requires 1 <= nDim && Rectangular(vr, nDim) && nALNs >= 1
    ensures |r| == |vr| && Rectangular(r, nDim)
    ensures forall i, j :: 0 <= i < |vr| && 0 <= j < nDim - 1 ==> r[i][j] == vr[i][j]
    ensures forall i :: 0 <= i < |vr| ==> r[i][nDim - 1] * (nALNs as real) == vr[i][nDim - 1]
  {
    seq(|vr|, i requires 0 <= i < |vr| => vr[i][nDim - 1 := vr[i][nDim - 1] / (nALNs as real)])
  }

  /** Rescaling keeps noise-variance samples non-negative and never enlarges
      them; with a single ALN it changes nothing. */
  lemma BagVarianceShrinks(vr: Table, nDim: nat, nALNs: int)
    requires 1 <= nDim && Rectangular(vr, nDim) && nALNs >= 1
    requires forall i :: 0 <= i < |vr| ==> vr[i][nDim - 1] >= 0.0
    ensures forall i :: 0 <= i < |vr| ==> 0.0 <= BagVariance(vr, nDim, nALNs)[i][nDim - 1] <= vr[i][nDim - 1]
    ensures nALNs == 1 ==> BagVariance(vr, nDim, nALNs) == vr
  {
    var r := BagVariance(vr, nDim, nALNs);
    forall i | 0 <= i < |vr| ensures 0.0 <= r[i][nDim - 1] <= vr[i][nDim - 1] {
      var v := vr[i][nDim - 1];
      var n := nALNs as real;
      assert r[i][nDim - 1] * n == v;
      assert r[i][nDim - 1] >= 0.0;
      assert r[i][nDim - 1] * n >= r[i][nDim - 1];
    }
    if nALNs == 1 {
      assert forall i :: 0 <= i < |vr| ==> r[i] == vr[i];
    }
  }

  /** The data provided to each stage. */
  datatype Files = Files(tv: Table, tr: Table, vr: Table)

  /** Row counts agree and every row has nDim columns. */
  ghost predicate Aligned(f: Files, nDim: nat)
  {
    && |f.tr| == |f.tv| && |f.vr| == |f.tv|
    && Rectangular(f.tv, nDim) && Rectangular(f.tr, nDim) && Rectangular(f.vr, nDim)
  }

  /** createTR_VARfiles: prepares TRfile and VARfile for the stage `choose`;
      TVfile is never written and any other selector changes nothing. */
  method CreateTrVarFiles(choose: int, f: Files, nDim: nat, lrc: seq<real>,
                          minVar: seq<real>, maxVar: seq<real>, nALNs: int)
    returns (g: Files)
    requires 1 <= nDim && Aligned(f, nDim)
    requires choose == Tessellation ==>
      nDim - 1 <= |lrc| && nDim - 1 <= |minVar| && nDim - 1 <= |maxVar|
      && HalfRangeSum(minVar, maxVar, nDim - 1) > 0.0
    requires choose == Bagging ==> nALNs >= 1
    ensures g.tv == f.tv && Aligned(g, nDim)
    ensures choose == LinearRegression ==> g.tr == f.tv && g.vr == f.tv
    ensures choose == Tessellation ==> g.vr == f.vr
    ensures choose == Tessellation ==>
      forall i, j :: 0 <= i < |f.tr| && 0 <= j < nDim - 1 ==> g.tr[i][j] == f.tr[i][j]
    ensures choose == Tessellation ==> forall i :: 0 <= i < |f.tr| ==>
      g.tr[i][nDim - 1] == ParaboloidValue(f.tr[i], lrc, nDim, 1.0 / HalfRangeSum(minVar, maxVar, nDim - 1))
    ensures choose == Tessellation ==> forall i :: 0 <= i < |f.tr| ==> g.tr[i][nDim - 1] >= 0.0
    ensures choose == Tessellation ==> forall i :: 0 <= i < |f.tr| ==>
      (g.tr[i][nDim - 1] == 0.0 <==> f.tr[i][..nDim - 1] == lrc[..nDim - 1])
    ensures choose == Approximation ==> g.tr == f.tv && g.vr == f.vr
    ensures choose == Bagging ==> g.tr == f.tr
    ensures choose == Bagging ==>
      forall i, j :: 0 <= i < |f.vr| && 0 <= j < nDim - 1 ==> g.vr[i][j] == f.vr[i][j]
    ensures choose == Bagging ==>
      forall i :: 0 <= i < |f.vr| ==> g.vr[i][nDim - 1] * (nALNs as real) == f.vr[i][nDim - 1]
    ensures choose !in {LinearRegression, Tessellation, Approximation, Bagging} ==> g == f
  {
    g := f;
    if choose == LinearRegression {
      // every row goes to the front: bSwitch is always TRUE
      var toFront := seq(|f.tv|, _ => true);
      var tr, vr, tmp0, tmp1 := FrontBackFill(f.tv, f.tr, f.vr, toFront);
      g := Files(f.tv, tr, vr);
    } else if choose == Tessellation {
      TessellationTargets(f.tr, lrc, minVar, maxVar, nDim);
      g := Files(f.tv, Tessellate(f.tr, lrc, minVar, maxVar, nDim), f.vr);
    } else if choose == Approximation {
      g := Files(f.tv, ApproximationFill(f.tv, f.tr, nDim), f.vr);
    } else if choose == Bagging {
      g := Files(f.tv, f.tr, BagVariance(f.vr, nDim, nALNs));
    }
  }
}
