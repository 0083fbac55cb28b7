/** Noise-variance samples: every linear piece of the tessellation turns the
    data rows lying on it into squared-residual samples of the noise
    variance, written over the output column of VARfile. A piece with more
    than nDim + 1 rows uses a least-squares fit through its rows; a smaller
    piece gives each of its rows the rows' sample variance. */
module NoiseVariance {
  import opened Common
  import opened Pieces

  /** Least-squares fitted values of targets `y` on design `X`, i.e. the hat
      matrix X (X'X)^-1 X' applied to y. */
  type Fitter = (seq<seq<real>>, seq<real>) -> seq<real>

  /** A fitter returns one fitted value per target. */
  ghost predicate FitterShape(fit: Fitter)
  {
    forall x, y :: |fit(x, y)| == |y|
  }

  /** The noise sample of one row on a well-populated piece: the residual
      scaled by 1 / (1 - nDim/nX), squared, times (nDim + 1)/(nDim + 3). */
  function RegressionSample(yhat: real, y: real, nDim: nat, nX: nat): (r: real)
    requires nX > nDim + 1
    ensures r >= 0.0
    ensures r == 0.0 <==> yhat == y
  {
    var shrink := 1.0 - (nDim as real) / (nX as real);
    assert shrink > 0.0 by {
      assert (nDim as real) < (nX as real);
    }
    var correct := (nDim as real + 1.0) / (nDim as real + 3.0);
    var z := (yhat - y) / shrink;
    assert z == 0.0 <==> yhat == y;
    assert z != 0.0 ==> Sq(z) * correct > 0.0 by {
      if z != 0.0 { PositiveProduct(Sq(z), correct); }
    }
    Sq(z) * correct
  }

  /** The sample variance of a small piece's values, written as the running
      sums produce it; one value (or none) gives zero. Over the reals it is
      never negative: the numerator is the sum of squared deviations from the
      mean. */
  function PooledVariance(y: seq<real>): (r: real)
    ensures r >= 0.0
  {
    var n := |y| as real;
    if |y| > 1 then
      var c := Sum(y) / n;
      SumSqDeviations(y, c);
      ExpandAtMean(SumSq(y), Sum(y), n);
      SumSqNonNegative(Deviations(y, c));
      (SumSq(y) - Sq(Sum(y)) / n) / (n - 1.0)
    else 0.0
  }

  /** The values' distances from a point `c`. */
  function Deviations(y: seq<real>, c: real): (d: seq<real>)
    ensures |d| == |y|
    ensures forall k :: 0 <= k < |y| ==> d[k] == y[k] - c
  {
    seq(|y|, k requires 0 <= k < |y| => y[k] - c)
  }

  /** (w - c)^2 = w^2 - 2 c w + c^2. */
  lemma SqOfDifference(w: real, c: real)
    ensures Sq(w - c) == Sq(w) - 2.0 * c * w + Sq(c)
  {
    SqIsProduct(w - c);
    SqIsProduct(w);
    SqIsProduct(c);
    assert (w - c) * (w - c) == w * w - 2.0 * c * w + c * c;
  }

  /** Q - 2 c S + n c^2: the sum of squared distances from `c` of n values
      whose sum is S and whose sum of squares is Q. */
  function Expanded(q: real, t: real, n: real, c: real): real
  {
    q - 2.0 * c * t + n * Sq(c)
  }

  /** Adding one value w to the sums adds its squared distance from `c`. */
  lemma ExpansionStep(q: real, t: real, n: real, w: real, c: real)
    ensures Expanded(q, t, n, c) + Sq(w - c) == Expanded(q + Sq(w), t + w, n + 1.0, c)
  {
    SqOfDifference(w, c);
    assert 2.0 * c * (t + w) == 2.0 * c * t + 2.0 * c * w;
    assert (n + 1.0) * Sq(c) == n * Sq(c) + Sq(c);
  }

  /** Expanding the squares: sum (y - c)^2 = Q - 2 c S + n c^2. */
  lemma {:induction false} SumSqDeviations(y: seq<real>, c: real)
    ensures SumSq(Deviations(y, c)) == Expanded(SumSq(y), Sum(y), |y| as real, c)
  {
    if |y| > 0 {
      var init := y[..|y| - 1];
      var w := y[|y| - 1];
      var d := Deviations(y, c);
      SumSqDeviations(init, c);
      assert d[..|y| - 1] == Deviations(init, c);
      ExpansionStep(SumSq(init), Sum(init), |init| as real, w, c);
    }
  }

  /** Substituting the mean c = S / n into Q - 2 c S + n c^2 gives Q - S^2 / n. */
  lemma ExpandAtMean(q: real, s: real, n: real)
    requires n > 0.0
    ensures Expanded(q, s, n, s / n) == q - Sq(s) / n
  {
    var c := s / n;
    SqIsProduct(c);
    SqIsProduct(s);
    assert c * n == s;
    assert n * (c * c) == s * c;
    assert s * c == s * s / n;
  }

  lemma DivTimes(x: real, d: real)
    requires d != 0.0
    ensures (x / d) * d == x
  {
  }

  /** The running-sum formula is the textbook sample variance: (n - 1) times
      it is the sum of squared deviations from the mean. */
  lemma PooledVarianceIsSampleVariance(y: seq<real>)
    requires |y| > 1
    ensures PooledVariance(y) * (|y| as real - 1.0) == SumSq(Deviations(y, Mean(y)))
  {
    var n := |y| as real;
    var c := Mean(y);
    var e := SumSq(y) - Sq(Sum(y)) / n;
    assert c == Sum(y) / n;
    SumSqDeviations(y, c);
    ExpandAtMean(SumSq(y), Sum(y), n);
    assert SumSq(Deviations(y, c)) == e;
    assert PooledVariance(y) == e / (n - 1.0);
    DivTimes(e, n - 1.0);
  }

  /** Values that are all equal have zero sample variance. */
  lemma PooledVarianceOfConstant(y: seq<real>, v: real)
    requires forall k :: 0 <= k < |y| ==> y[k] == v
    ensures PooledVariance(y) == 0.0
  {
    if |y| > 1 {
      SumConstant(y, v);
      var n := |y| as real;
      assert Mean(y) == v;
      SumSqZeroIff(Deviations(y, v));
      PooledVarianceIsSampleVariance(y);
      var pv := PooledVariance(y);
      assert pv * (n - 1.0) == 0.0;
    }
  }

  /** The rows of a table whose indices are all in range. */
  ghost predicate RowsIn(t: Table, rows: seq<nat>)
  {
    forall j :: 0 <= j < |rows| ==> rows[j] < |t|
  }

  /** Design matrix of a piece: each row's inputs followed by a constant 1. */
  function Design(t: Table, rows: seq<nat>, nDim: nat): (x: seq<seq<real>>)
    requires 1 <= nDim && Rectangular(t, nDim) && RowsIn(t, rows)
    ensures |x| == |rows|
    ensures forall j :: 0 <= j < |rows| ==>
      |x[j]| == nDim && x[j][..nDim - 1] == t[rows[j]][..nDim - 1] && x[j][nDim - 1] == 1.0
  {
    seq(|rows|, j requires 0 <= j < |rows| => t[rows[j]][..nDim - 1] + [1.0])
  }

  /** The output column of the given rows. */
  function Outputs(t: Table, rows: seq<nat>, nDim: nat): (y: seq<real>)
    requires 1 <= nDim && Rectangular(t, nDim) && RowsIn(t, rows)
    ensures |y| == |rows|
    ensures forall j :: 0 <= j < |rows| ==> y[j] == t[rows[j]][nDim - 1]
  {
    seq(|rows|, j requires 0 <= j < |rows| => t[rows[j]][nDim - 1])
  }

  lemma OutputsAppend(t: Table, rows: seq<nat>, k: nat, nDim: nat)
    requires 1 <= nDim && Rectangular(t, nDim) && RowsIn(t, rows) && k < |t|
    ensures RowsIn(t, rows + [k])
    ensures Outputs(t, rows + [k], nDim) == Outputs(t, rows, nDim) + [t[k][nDim - 1]]
    ensures Design(t, rows + [k], nDim) == Design(t, rows, nDim) + [t[k][..nDim - 1] + [1.0]]
  {
  }

  /** The noise samples of the rows of one piece, member by member. A piece
      with more than nDim + 1 rows gets one sample per row from the fitted
      plane, zero exactly where the plane passes through the row; a smaller
      piece gives all its rows one common value, zero for a single row. */
  function PieceSamples(t: Table, rows: seq<nat>, nDim: nat, fit: Fitter): (r: seq<real>)
    requires 1 <= nDim && Rectangular(t, nDim) && RowsIn(t, rows) && FitterShape(fit)
    ensures |r| == |rows|
    ensures forall j :: 0 <= j < |r| ==> r[j] >= 0.0
    ensures |rows| > nDim + 1 ==>
      var y := Outputs(t, rows, nDim);
      var yhat := fit(Design(t, rows, nDim), y);
      forall j :: 0 <= j < |r| ==> (r[j] == 0.0 <==> yhat[j] == y[j])
    ensures |rows| <= nDim + 1 ==> forall a, b :: 0 <= a < b < |r| ==> r[a] == r[b]
    ensures |rows| == 1 ==> r == [0.0]
  {
    var nX := |rows|;
    var y := Outputs(t, rows, nDim);
    if nX > nDim + 1 then
      var yhat := fit(Design(t, rows, nDim), y);
      seq(nX, j requires 0 <= j < nX => RegressionSample(yhat[j], y[j], nDim, nX))
    else
      seq(nX, j => PooledVariance(y))
  }

  /** A small piece whose rows share one output value gets zero samples. */
  lemma ConstantSmallPieceIsNoiseless(t: Table, rows: seq<nat>, nDim: nat, fit: Fitter, v: real)
    requires 1 <= nDim && Rectangular(t, nDim) && RowsIn(t, rows) && FitterShape(fit)
    requires |rows| <= nDim + 1
    requires forall j :: 0 <= j < |rows| ==> t[rows[j]][nDim - 1] == v
    ensures forall j :: 0 <= j < |rows| ==> PieceSamples(t, rows, nDim, fit)[j] == 0.0
  {
    PooledVarianceOfConstant(Outputs(t, rows, nDim), v);
  }

  /** A small piece's common value is the sample variance of its outputs. */
  lemma SmallPieceSampleVariance(t: Table, rows: seq<nat>, nDim: nat, fit: Fitter)
    requires 1 <= nDim && Rectangular(t, nDim) && RowsIn(t, rows) && FitterShape(fit)
    requires 1 < |rows| <= nDim + 1
    ensures var y := Outputs(t, rows, nDim);
            forall j :: 0 <= j < |rows| ==>
              PieceSamples(t, rows, nDim, fit)[j] * (|rows| as real - 1.0)
                == SumSq(Deviations(y, Mean(y)))
  {
    var y := Outputs(t, rows, nDim);
    PooledVarianceIsSampleVariance(y);
    var r := PieceSamples(t, rows, nDim, fit);
    assert forall j :: 0 <= j < |rows| ==> r[j] == PooledVariance(y);
  }

  /** The row VARfile ends with at row k: unchanged off the pieces, and on
      piece p the member's noise sample in the output column. Everything is
      computed from the table and map as they were on entry. */
  function SampleRow(t: Table, s: PieceMap, nDim: nat, fit: Fitter, k: nat): (row: seq<real>)
    requires 1 <= nDim && Rectangular(t, nDim) && |s| == |t| && FitterShape(fit)
    requires k < |t|
    ensures |row| == nDim && row[..nDim - 1] == t[k][..nDim - 1]
    ensures s[k].None? ==> row == t[k]
    ensures s[k].Some? ==> row[nDim - 1] >= 0.0
  {
    match s[k]
    case None => t[k]
    case Some(p) =>
      var rows := MembersIn(s, p, 0, |s|);
      MembersSound(s, p, 0, |s|);
      MemberRank(s, p, 0, k);
      t[k][nDim - 1 := PieceSamples(t, rows, nDim, fit)[Rank(s, p, 0, k)]]
  }

  /** The counters createSamples reports. */
  datatype Tally = Tally(goodSamples: nat, badSamples: nat, goodPieces: nat, badPieces: nat)

  /** The pieces among those met by rows 0 .. i-1 with more (or, for
      `big == false`, no more) than nDim + 1 rows in the whole map. */
  ghost function SeenBySize(s: PieceMap, i: nat, nDim: nat, big: bool): set<int>
    requires i <= |s|
  {
    set p | p in Seen(s, i) && (|MembersIn(s, p, 0, |s|)| > nDim + 1) == big
  }

  /** The number of rows from `i` on that lie on piece `p`. */
  method CountMembers(m: PieceMap, p: int, i: nat) returns (nX: nat)
    requires i <= |m|
    ensures nX == |MembersIn(m, p, i, |m|)|
  {
    nX := 0;
    var ii := i;
    while ii < |m|
      invariant i <= ii <= |m|
      invariant nX == |MembersIn(m, p, i, ii)|
    {
      if m[ii] == Some(p) {
        nX := nX + 1;
      }
      ii := ii + 1;
    }
  }

  /** The design rows and outputs of the rows from `i` on that lie on `p`. */
  method Gather(v: Table, m: PieceMap, p: int, i: nat, nDim: nat)
    returns (x: seq<seq<real>>, y: seq<real>)
    requires 1 <= nDim && Rectangular(v, nDim) && |m| == |v| && i <= |m|
    ensures RowsIn(v, MembersIn(m, p, i, |m|))
    ensures x == Design(v, MembersIn(m, p, i, |m|), nDim)
    ensures y == Outputs(v, MembersIn(m, p, i, |m|), nDim)
  {
    x, y := [], [];
    ghost var rows: seq<nat> := [];
    var ii := i;
    while ii < |m|
      invariant i <= ii <= |m|
      invariant rows == MembersIn(m, p, i, ii) && RowsIn(v, rows)
      invariant x == Design(v, rows, nDim) && y == Outputs(v, rows, nDim)
    {
      if m[ii] == Some(p) {
        OutputsAppend(v, rows, ii, nDim);
        x := x + [v[ii][..nDim - 1] + [1.0]];
        y := y + [v[ii][nDim - 1]];
        rows := rows + [ii];
      }
      ii := ii + 1;
    }
  }

  /** One step of the running sums over the rows in [i, ii) on `p`: row `ii`
      adds its output to the sum and its square to the sum of squares when it
      lies on `p`, and leaves the rows as they are otherwise. */
  lemma PooledStep(v: Table, m: PieceMap, p: int, i: nat, ii: nat, nDim: nat, sum: real, sq: real)
    requires 1 <= nDim && Rectangular(v, nDim) && |m| == |v| && i <= ii < |m|
    requires RowsIn(v, MembersIn(m, p, i, ii))
    requires sum == Sum(Outputs(v, MembersIn(m, p, i, ii), nDim))
    requires sq == SumSq(Outputs(v, MembersIn(m, p, i, ii), nDim))
    ensures RowsIn(v, MembersIn(m, p, i, ii + 1))
    ensures m[ii] == Some(p) ==>
      && sum + v[ii][nDim - 1] == Sum(Outputs(v, MembersIn(m, p, i, ii + 1), nDim))
      && sq + Sq(v[ii][nDim - 1]) == SumSq(Outputs(v, MembersIn(m, p, i, ii + 1), nDim))
    ensures m[ii] != Some(p) ==> MembersIn(m, p, i, ii + 1) == MembersIn(m, p, i, ii)
  {
    var rows := MembersIn(m, p, i, ii);
    if m[ii] == Some(p) {
      assert MembersIn(m, p, i, ii + 1) == rows + [ii];
      OutputsAppend(v, rows, ii, nDim);
      SumAppend(Outputs(v, rows, nDim), v[ii][nDim - 1]);
    } else {
      assert MembersIn(m, p, i, ii + 1) == rows + [];
    }
  }

  /** The running sum and sum of squares of the outputs of the rows from `i`
      on that lie on `p`. */
  method PooledSums(v: Table, m: PieceMap, p: int, i: nat, nDim: nat)
    returns (sum: real, sq: real)
    requires 1 <= nDim && Rectangular(v, nDim) && |m| == |v| && i <= |m|
    ensures RowsIn(v, MembersIn(m, p, i, |m|))
    ensures sum == Sum(Outputs(v, MembersIn(m, p, i, |m|), nDim))
    ensures sq == SumSq(Outputs(v, MembersIn(m, p, i, |m|), nDim))
  {
    sum, sq := 0.0, 0.0;
    var ii := i;
    while ii < |m|
      invariant i <= ii <= |m|
      invariant RowsIn(v, MembersIn(m, p, i, ii))
      invariant sum == Sum(Outputs(v, MembersIn(m, p, i, ii), nDim))
      invariant sq == SumSq(Outputs(v, MembersIn(m, p, i, ii), nDim))
    {
      PooledStep(v, m, p, i, ii, nDim, sum, sq);
      if m[ii] == Some(p) {
        var value := v[ii][nDim - 1];
        sum := sum + value;
        sq := sq + Sq(value);
      }
      ii := ii + 1;
    }
  }

  /** VARfile once the rows in [i, ii) on `p` carry their samples. */
  ghost function WrittenTable(v: Table, m: PieceMap, p: int, i: nat, ii: nat, nDim: nat, samples: seq<real>): (w: Table)
    requires 1 <= nDim && Rectangular(v, nDim) && |m| == |v| && ii <= |m|
    ensures |w| == |v|
  {
    seq(|v|, k requires 0 <= k < |v| =>
      if i <= k < ii && m[k] == Some(p) && Rank(m, p, i, k) < |samples|
      then v[k][nDim - 1 := samples[Rank(m, p, i, k)]] else v[k])
  }

  /** The piece map once the rows in [i, ii) on `p` are cleared. */
  ghost function ClearedMap(m: PieceMap, p: int, i: nat, ii: nat): (c: PieceMap)
    requires ii <= |m|
    ensures |c| == |m|
  {
    seq(|m|, k requires 0 <= k < |m| => if i <= k < ii && m[k] == Some(p) then None else m[k])
  }

  /** One more row of the write pass. */
  lemma WriteStep(v: Table, m: PieceMap, p: int, i: nat, ii: nat, nDim: nat, samples: seq<real>)
    requires 1 <= nDim && Rectangular(v, nDim) && |m| == |v| && i <= ii < |m|
    ensures m[ii] != Some(p) ==>
      && WrittenTable(v, m, p, i, ii + 1, nDim, samples) == WrittenTable(v, m, p, i, ii, nDim, samples)
      && ClearedMap(m, p, i, ii + 1) == ClearedMap(m, p, i, ii)
    ensures m[ii] == Some(p) && Rank(m, p, i, ii) < |samples| ==>
      && WrittenTable(v, m, p, i, ii + 1, nDim, samples)
         == WrittenTable(v, m, p, i, ii, nDim, samples)[ii := v[ii][nDim - 1 := samples[Rank(m, p, i, ii)]]]
      && ClearedMap(m, p, i, ii + 1) == ClearedMap(m, p, i, ii)[ii := None]
  {
  }

  /** Writes the samples over the output column of the rows from `i` on
      that lie on `p`, in row order, and clears those rows' pieces: the row
      with n such rows before it receives sample n. */
  method WriteSamples(v: Table, m: PieceMap, p: int, i: nat, nDim: nat, samples: seq<real>)
    returns (v': Table, m': PieceMap, nRow: nat)
    requires 1 <= nDim && Rectangular(v, nDim) && |m| == |v| && i <= |m|
    requires |samples| == |MembersIn(m, p, i, |m|)|
    ensures |v'| == |v| && |m'| == |m|
    // the write pass meets as many rows as the count pass did
    ensures nRow == |samples|
    ensures forall k :: i <= k < |m| && m[k] == Some(p) ==>
      && Rank(m, p, i, k) < |samples|
      && v'[k] == v[k][nDim - 1 := samples[Rank(m, p, i, k)]]
      && m'[k] == None
    ensures forall k :: 0 <= k < |m| && !(i <= k && m[k] == Some(p)) ==> v'[k] == v[k] && m'[k] == m[k]
  {
    v', m' := v, m;
    nRow := 0;
    var ii := i;
    while ii < |m|
      invariant i <= ii <= |m|
      invariant nRow == Rank(m, p, i, ii) <= |samples|
      invariant v' == WrittenTable(v, m, p, i, ii, nDim, samples) && m' == ClearedMap(m, p, i, ii)
    {
      WriteStep(v, m, p, i, ii, nDim, samples);
      if m[ii] == Some(p) {
        MembersPrefix(m, p, i, ii + 1, |m|);
        v' := v'[ii := v[ii][nDim - 1 := samples[nRow]]];
        m' := m'[ii := None];
        nRow := nRow + 1;
      }
      ii := ii + 1;
    }
    WrittenRanks(m, p, i, samples);
  }

  /** Every row from `i` on that lies on `p` has a rank below the number of
      such rows. */
  lemma WrittenRanks(m: PieceMap, p: int, i: nat, samples: seq<real>)
    requires i <= |m| && |samples| == |MembersIn(m, p, i, |m|)|
    ensures forall k :: i <= k < |m| && m[k] == Some(p) ==> Rank(m, p, i, k) < |samples|
  {
    forall k | i <= k < |m| && m[k] == Some(p)
      ensures Rank(m, p, i, k) < |samples|
    {
      MemberRank(m, p, i, k);
    }
  }

  /** The noise samples of the piece `p` met at row `i`, computed as the
      source does: count the rows, then either fit them or pool them. */
  method PieceNoise(v: Table, m: PieceMap, p: int, i: nat, nDim: nat, fit: Fitter)
    returns (nX: nat, samples: seq<real>, good: bool)
    requires 1 <= nDim && Rectangular(v, nDim) && |m| == |v| && i <= |m| && FitterShape(fit)
    ensures nX == |MembersIn(m, p, i, |m|)|
    ensures RowsIn(v, MembersIn(m, p, i, |m|))
    ensures samples == PieceSamples(v, MembersIn(m, p, i, |m|), nDim, fit)
    ensures good <==> |MembersIn(m, p, i, |m|)| > nDim + 1
  {
    nX := CountMembers(m, p, i);
    if nX > nDim + 1 {
      var x, y := Gather(v, m, p, i, nDim);
      var yhat := fit(x, y);
      samples := seq(nX, j requires 0 <= j < nX => RegressionSample(yhat[j], y[j], nDim, nX));
      good := true;
    } else {
      var sum, sq := PooledSums(v, m, p, i, nDim);
      var n := nX as real;
      SqIsProduct(sum);
      var value := if nX > 1 then (sq - sum * sum / n) / (n - 1.0) else 0.0;
      samples := seq(nX, j => value);
      good := false;
    }
  }

  /** Row k has been processed once the sweep has passed a row of its piece. */
  ghost predicate Done(s: PieceMap, i: nat, k: nat)
    requires i <= |s| && k < |s|
  {
    s[k].Some? && s[k].value in Seen(s, i)
  }

  /** VARfile after rows 0 .. i-1 of the sweep: the rows of every piece met
      so far carry their samples; all other rows are as on entry. */
  ghost function SweptTable(var0: Table, s: PieceMap, nDim: nat, fit: Fitter, i: nat): (t: Table)
    requires 1 <= nDim && Rectangular(var0, nDim) && |s| == |var0| && FitterShape(fit) && i <= |s|
    ensures |t| == |var0| && Rectangular(t, nDim)
  {
    seq(|s|, k requires 0 <= k < |s| =>
      if Done(s, i, k) then SampleRow(var0, s, nDim, fit, k) else var0[k])
  }

  /** The piece map after rows 0 .. i-1: the rows of every piece met so far
      have lost their piece. */
  ghost function SweptMap(s: PieceMap, i: nat): (m: PieceMap)
    requires i <= |s|
    ensures |m| == |s|
  {
    seq(|s|, k requires 0 <= k < |s| => if Done(s, i, k) then None else s[k])
  }

  /** The state after rows 0 .. i-1 of the sweep. */
  ghost predicate Swept(var0: Table, s: PieceMap, nDim: nat, fit: Fitter, i: nat, v: Table, m: PieceMap)
    requires 1 <= nDim && Rectangular(var0, nDim) && |s| == |var0| && FitterShape(fit) && i <= |s|
  {
    v == SweptTable(var0, s, nDim, fit, i) && m == SweptMap(s, i)
  }

  /** Every map entry before the sweep position has been cleared, so a piece
      met at row i has no rows before i (see FreshPiece). */
  lemma SweptPrefixCleared(var0: Table, s: PieceMap, nDim: nat, fit: Fitter, i: nat, v: Table, m: PieceMap)
    requires 1 <= nDim && Rectangular(var0, nDim) && |s| == |var0| && FitterShape(fit) && i <= |s|
    requires Swept(var0, s, nDim, fit, i, v, m)
    ensures forall k :: 0 <= k < i ==> m[k].None?
  {
    SeenHas(s, i);
  }

  /** The counters after rows 0 .. i-1 of the sweep. */
  ghost predicate Tallied(s: PieceMap, nDim: nat, i: nat, t: Tally)
    requires i <= |s|
  {
    && t.goodPieces == |SeenBySize(s, i, nDim, true)|
    && t.badPieces == |SeenBySize(s, i, nDim, false)|
    && t.goodSamples == CountOn(s, SeenBySize(s, i, nDim, true), |s|)
    && t.badSamples == CountOn(s, SeenBySize(s, i, nDim, false), |s|)
  }

  /** Samples depend only on the rows they are computed from. */
  lemma PieceSamplesFrame(t: Table, t': Table, rows: seq<nat>, nDim: nat, fit: Fitter)
    requires 1 <= nDim && Rectangular(t, nDim) && Rectangular(t', nDim) && FitterShape(fit)
    requires RowsIn(t, rows) && RowsIn(t', rows)
    requires forall j :: 0 <= j < |rows| ==> t[rows[j]] == t'[rows[j]]
    ensures PieceSamples(t, rows, nDim, fit) == PieceSamples(t', rows, nDim, fit)
  {
    assert Design(t, rows, nDim) == Design(t', rows, nDim);
    assert Outputs(t, rows, nDim) == Outputs(t', rows, nDim);
  }

  /** A piece still present at row i was not met before i, so the remaining
      map lists exactly its rows, and those rows are untouched. */
  lemma FreshPiece(var0: Table, s: PieceMap, nDim: nat, fit: Fitter, i: nat, v: Table, m: PieceMap)
    requires 1 <= nDim && Rectangular(var0, nDim) && |s| == |var0| && FitterShape(fit) && i < |s|
    requires Swept(var0, s, nDim, fit, i, v, m) && m[i].Some?
    ensures s[i] == m[i] && m[i].value !in Seen(s, i)
    ensures MembersIn(m, m[i].value, i, |m|) == MembersIn(s, m[i].value, 0, |s|)
    ensures RowsIn(var0, MembersIn(s, m[i].value, 0, |s|))
    ensures PieceSamples(v, MembersIn(m, m[i].value, i, |m|), nDim, fit)
         == PieceSamples(var0, MembersIn(s, m[i].value, 0, |s|), nDim, fit)
  {
    var p := m[i].value;
    assert !Done(s, i, i);
    SeenHas(s, i);
    forall k | i <= k < |s|
      ensures m[k] == Some(p) <==> s[k] == Some(p)
    {
      if s[k] == Some(p) {
        assert !Done(s, i, k);
      }
    }
    MembersAgree(m, s, p, i, |s|);
    var rows := MembersIn(s, p, 0, |s|);
    MembersSound(s, p, 0, |s|);
    forall j | 0 <= j < |rows|
      ensures v[rows[j]] == var0[rows[j]]
    {
      assert !Done(s, i, rows[j]);
    }
    PieceSamplesFrame(v, var0, rows, nDim, fit);
  }

  /** A row whose piece was met earlier, or that has none, changes nothing. */
  lemma SkipRow(var0: Table, s: PieceMap, nDim: nat, fit: Fitter, i: nat, v: Table, m: PieceMap, t: Tally)
    requires 1 <= nDim && Rectangular(var0, nDim) && |s| == |var0| && FitterShape(fit) && i < |s|
    requires Swept(var0, s, nDim, fit, i, v, m) && Tallied(s, nDim, i, t) && m[i].None?
    ensures Swept(var0, s, nDim, fit, i + 1, v, m) && Tallied(s, nDim, i + 1, t)
  {
    ClearedRowMeetsNothing(s, i, m[i]);
    SweptSameSeen(var0, s, nDim, fit, i, i + 1, v, m);
    TalliedSameSeen(s, nDim, i, i + 1, t);
  }

  /** A row the sweep finds without a piece has no piece or one met before. */
  lemma ClearedRowMeetsNothing(s: PieceMap, i: nat, cleared: Option<int>)
    requires i < |s| && cleared.None?
    requires cleared == if Done(s, i, i) then None else s[i]
    ensures Seen(s, i + 1) == Seen(s, i)
  {
    SeenStep(s, i);
  }

  /** So do the counters. */
  lemma TalliedSameSeen(s: PieceMap, nDim: nat, i: nat, i': nat, t: Tally)
    requires i <= |s| && i' <= |s| && Seen(s, i) == Seen(s, i')
    requires Tallied(s, nDim, i, t)
    ensures Tallied(s, nDim, i', t)
  {
    assert SeenBySize(s, i', nDim, true) == SeenBySize(s, i, nDim, true);
    assert SeenBySize(s, i', nDim, false) == SeenBySize(s, i, nDim, false);
  }

  /** The sweep state depends on the position only through the pieces met. */
  lemma SweptSameSeen(var0: Table, s: PieceMap, nDim: nat, fit: Fitter, i: nat, i': nat, v: Table, m: PieceMap)
    requires 1 <= nDim && Rectangular(var0, nDim) && |s| == |var0| && FitterShape(fit)
    requires i <= |s| && i' <= |s| && Seen(s, i) == Seen(s, i')
    requires Swept(var0, s, nDim, fit, i, v, m)
    ensures Swept(var0, s, nDim, fit, i', v, m)
  {
    assert forall k :: 0 <= k < |s| ==> Done(s, i', k) == Done(s, i, k);
    assert SweptTable(var0, s, nDim, fit, i') == SweptTable(var0, s, nDim, fit, i);
    assert SweptMap(s, i') == SweptMap(s, i);
  }

  /** Meeting a new piece adds it to the pieces of its size class. */
  lemma TallyStep(s: PieceMap, nDim: nat, i: nat, t: Tally, p: int, good: bool)
    requires i < |s| && s[i] == Some(p) && p !in Seen(s, i) && Tallied(s, nDim, i, t)
    requires good <==> |MembersIn(s, p, 0, |s|)| > nDim + 1
    ensures var nX := |MembersIn(s, p, 0, |s|)|;
      Tallied(s, nDim, i + 1,
        if good then t.(goodSamples := t.goodSamples + nX, goodPieces := t.goodPieces + 1)
        else t.(badSamples := t.badSamples + nX, badPieces := t.badPieces + 1))
  {
    SeenBySizeStep(s, nDim, i, p, good);
    CountOnAdd(s, SeenBySize(s, i, nDim, good), p, |s|);
  }

  /** A new piece joins its own size class and leaves the other alone. */
  lemma SeenBySizeStep(s: PieceMap, nDim: nat, i: nat, p: int, good: bool)
    requires i < |s| && s[i] == Some(p) && p !in Seen(s, i)
    requires good <==> |MembersIn(s, p, 0, |s|)| > nDim + 1
    ensures p !in SeenBySize(s, i, nDim, good)
    ensures SeenBySize(s, i + 1, nDim, good) == SeenBySize(s, i, nDim, good) + {p}
    ensures SeenBySize(s, i + 1, nDim, !good) == SeenBySize(s, i, nDim, !good)
  {
    SeenStep(s, i);
  }

  /** After the write, the piece's rows carry their samples and are cleared. */
  lemma AfterWrite(var0: Table, s: PieceMap, nDim: nat, fit: Fitter, i: nat, v: Table, m: PieceMap,
                   samples: seq<real>, v': Table, m': PieceMap)
    requires 1 <= nDim && Rectangular(var0, nDim) && |s| == |var0| && FitterShape(fit) && i < |s|
    requires Swept(var0, s, nDim, fit, i, v, m) && m[i].Some?
    requires s[i] == m[i] && m[i].value !in Seen(s, i)
    requires MembersIn(m, m[i].value, i, |m|) == MembersIn(s, m[i].value, 0, |s|)
    requires RowsIn(var0, MembersIn(s, m[i].value, 0, |s|))
    requires samples == PieceSamples(var0, MembersIn(s, m[i].value, 0, |s|), nDim, fit)
    requires |v'| == |v| && |m'| == |m|
    requires forall k :: i <= k < |m| && m[k] == m[i] ==>
      && Rank(m, m[i].value, i, k) < |samples|
      && v'[k] == v[k][nDim - 1 := samples[Rank(m, m[i].value, i, k)]]
      && m'[k] == None
    requires forall k :: 0 <= k < |m| && !(i <= k && m[k] == m[i]) ==> v'[k] == v[k] && m'[k] == m[k]
    ensures Swept(var0, s, nDim, fit, i + 1, v', m')
  {
    var p := m[i].value;
    SeenStep(s, i);
    SeenHas(s, i);
    var nextTable := SweptTable(var0, s, nDim, fit, i + 1);
    var nextMap := SweptMap(s, i + 1);
    forall k | 0 <= k < |s|
      ensures m'[k] == nextMap[k] && v'[k] == nextTable[k]
    {
      if s[k] == Some(p) {
        assert Done(s, i + 1, k) && !Done(s, i, k);
        assert v[k] == var0[k] && m[k] == Some(p) && i <= k;
        MembersAgree(m, s, p, i, k);
        assert v'[k] == SampleRow(var0, s, nDim, fit, k);
      } else {
        assert Done(s, i + 1, k) == Done(s, i, k);
        assert v'[k] == v[k] && m'[k] == m[k];
      }
    }
    assert v' == nextTable && m' == nextMap;
  }

  /** Processes the piece met at row i: computes its samples, writes them
      and clears its rows from the map. */
  method ProcessPiece(var0: Table, s: PieceMap, nDim: nat, fit: Fitter, i: nat,
                      v: Table, m: PieceMap, t: Tally)
    returns (v': Table, m': PieceMap, t': Tally)
    requires 1 <= nDim && Rectangular(var0, nDim) && |s| == |var0| && FitterShape(fit) && i < |s|
    requires Swept(var0, s, nDim, fit, i, v, m) && Tallied(s, nDim, i, t) && m[i].Some?
    ensures Swept(var0, s, nDim, fit, i + 1, v', m') && Tallied(s, nDim, i + 1, t')
  {
    var p := m[i].value;
    FreshPiece(var0, s, nDim, fit, i, v, m);
    var nX, samples, good := PieceNoise(v, m, p, i, nDim, fit);
    var nRow;
    v', m', nRow := WriteSamples(v, m, p, i, nDim, samples);
    assert nRow == nX;
    AfterWrite(var0, s, nDim, fit, i, v, m, samples, v', m');
    TallyStep(s, nDim, i, t, p, good);
    if good {
      t' := t.(goodSamples := t.goodSamples + nX, goodPieces := t.goodPieces + 1);
    } else {
      t' := t.(badSamples := t.badSamples + nX, badPieces := t.badPieces + 1);
    }
  }

  /** Before the sweep nothing has been met or counted. */
  lemma SweepStart(var0: Table, s: PieceMap, nDim: nat, fit: Fitter)
    requires 1 <= nDim && Rectangular(var0, nDim) && |s| == |var0| && FitterShape(fit)
    ensures Swept(var0, s, nDim, fit, 0, var0, s) && Tallied(s, nDim, 0, Tally(0, 0, 0, 0))
  {
    assert Seen(s, 0) == {};
    assert SeenBySize(s, 0, nDim, true) == {};
    assert SeenBySize(s, 0, nDim, false) == {};
    CountOnNothing(s, |s|);
  }

  /** VARfile as createSamples leaves it: every row replaced by its
      reference row. */
  ghost function NoiseTable(var0: Table, s: PieceMap, nDim: nat, fit: Fitter): Table
    requires 1 <= nDim && Rectangular(var0, nDim) && |s| == |var0| && FitterShape(fit)
  {
    seq(|s|, k requires 0 <= k < |s| => SampleRow(var0, s, nDim, fit, k))
  }

  /** At the end of the sweep every assigned row has been processed. */
  lemma SweepComplete(var0: Table, s: PieceMap, nDim: nat, fit: Fitter, i: nat, v: Table, m: PieceMap)
    requires 1 <= nDim && Rectangular(var0, nDim) && |s| == |var0| && FitterShape(fit)
    requires i == |s| && Swept(var0, s, nDim, fit, i, v, m)
    ensures v == NoiseTable(var0, s, nDim, fit)
    ensures forall k :: 0 <= k < |m| ==> m[k].None?
  {
    SeenHas(s, |s|);
    assert forall k :: 0 <= k < |v| ==> v[k] == SampleRow(var0, s, nDim, fit, k);
  }

  /** At the end of the sweep the counters cover every piece and row. */
  lemma TallyComplete(s: PieceMap, nDim: nat, i: nat, t: Tally)
    requires i == |s| && Tallied(s, nDim, i, t)
    ensures t.goodSamples + t.badSamples == CountAssigned(s, |s|)
    ensures t.goodPieces + t.badPieces == |Seen(s, |s|)|
  {
    SeenHas(s, |s|);
    var good := SeenBySize(s, |s|, nDim, true);
    var bad := SeenBySize(s, |s|, nDim, false);
    assert good + bad == Seen(s, |s|);
    assert good !! bad;
    CountOnUnion(s, good, bad, |s|);
    CountOnAll(s, Seen(s, |s|), |s|);
  }

  /** createSamples: sweeps the rows in order; the first row of each piece
      not yet met triggers the computation of that piece's samples, which
      are written over the output column of all its rows, whose pieces are
      then cleared. The result is VARfile, the emptied map and the counters. */
  method CreateSamples(var0: Table, apLFN: PieceMap, nDim: nat, fit: Fitter)
    returns (v: Table, m: PieceMap, tally: Tally)
    requires 1 <= nDim && Rectangular(var0, nDim) && |apLFN| == |var0| && FitterShape(fit)
    ensures |m| == |apLFN| && forall k :: 0 <= k < |m| ==> m[k].None?
    ensures tally.goodSamples + tally.badSamples == CountAssigned(apLFN, |apLFN|)
    ensures tally.goodPieces + tally.badPieces == |Seen(apLFN, |apLFN|)|
    ensures tally.goodPieces == |SeenBySize(apLFN, |apLFN|, nDim, true)|
    ensures tally.goodSamples == CountOn(apLFN, SeenBySize(apLFN, |apLFN|, nDim, true), |apLFN|)
    // every row of VARfile ends as its reference row
    ensures v == NoiseTable(var0, apLFN, nDim, fit)
  {
    v, m := var0, apLFN;
    tally := Tally(0, 0, 0, 0);
    SweepStart(var0, apLFN, nDim, fit);
    var i := 0;
    while i < |m|
      invariant 0 <= i <= |apLFN| == |m|
      invariant Swept(var0, apLFN, nDim, fit, i, v, m) && Tallied(apLFN, nDim, i, tally)
    {
      if m[i].Some? {
        v, m, tally := ProcessPiece(var0, apLFN, nDim, fit, i, v, m, tally);
      } else {
        SkipRow(var0, apLFN, nDim, fit, i, v, m, tally);
      }
      i := i + 1;
    }
    SweepComplete(var0, apLFN, nDim, fit, i, v, m);
    TallyComplete(apLFN, nDim, i, tally);
  }
}
