/** Per-axis constraints set on every ALN before training: the domain is
    widened by a tenth of a standard deviation on each side, and the weight
    (slope) bounds are derived from the output spread and the axis epsilon,
    then tightened by the a-priori bounds. */
module AxisBounds {
  import opened Common

  /** What the data analysis supplies for one input axis. */
  datatype AxisStats = AxisStats(
    epsilon: real,    // size of the box a sample owns along this axis
    minVar: real,     // smallest value of the axis in the data
    maxVar: real,     // largest value of the axis in the data
    stdev: real,      // standard deviation of the axis
    minWeight: real,  // a-priori lower bound on the slope
    maxWeight: real)  // a-priori upper bound on the slope

  /** The constraint an ALN ends up with on one input axis. */
  datatype AxisConstraint = AxisConstraint(
    epsilon: real,
    min: real,
    max: real,
    weightMin: real,
    weightMax: real)

  /** The reason linear regression stops: axis `axis` has zero epsilon. */
  datatype ConfigError = ConstantAxis(axis: nat)

  /** The slope scale sqrt(2) * stdev(output); `sqrt2` stands for pow(2.0, 0.5). */
  function SlopeScale(sqrt2: real, stdevOut: real): real
  {
    sqrt2 * stdevOut
  }

  /** The constraint for one axis, given the slope scale `k`. */
  function ConstrainAxis(a: AxisStats, k: real): (c: AxisConstraint)
    requires a.epsilon != 0.0
    ensures c.epsilon == a.epsilon
    // the lower weight bound is the larger of the derived and a-priori bounds
    ensures c.weightMin >= -k / a.epsilon && c.weightMin >= a.minWeight
    ensures c.weightMin == -k / a.epsilon || c.weightMin == a.minWeight
    // the upper weight bound is the smaller of the two
    ensures c.weightMax <= k / a.epsilon && c.weightMax <= a.maxWeight
    ensures c.weightMax == k / a.epsilon || c.weightMax == a.maxWeight
    // the domain is the data range widened by a tenth of a deviation per side
    ensures c.max - c.min == (a.maxVar - a.minVar) + 0.2 * a.stdev
    ensures c.min + 0.1 * a.stdev == a.minVar && c.max - 0.1 * a.stdev == a.maxVar
  {
    var wMin := -k / a.epsilon;
    var wMax := k / a.epsilon;
    var wMin' := if a.minWeight > wMin then a.minWeight else wMin;
    var wMax' := if a.maxWeight < wMax then a.maxWeight else wMax;
    AxisConstraint(a.epsilon, a.minVar - 0.1 * a.stdev, a.maxVar + 0.1 * a.stdev, wMin', wMax')
  }

  /** With a non-negative deviation the widened domain contains the data. */
  lemma DomainCoversData(a: AxisStats, k: real)
    requires a.epsilon != 0.0
    requires a.stdev >= 0.0
    ensures ConstrainAxis(a, k).min <= a.minVar
    ensures a.maxVar <= ConstrainAxis(a, k).max
  {
  }

  /** With a positive epsilon and slope scale, the derived bounds are a
      symmetric interval around zero; when the a-priori bounds admit a zero
      slope, so does the final interval (which is then non-empty). */
  lemma ZeroSlopeAdmitted(a: AxisStats, k: real)
    requires a.epsilon > 0.0 && k > 0.0
    requires a.minWeight <= 0.0 <= a.maxWeight
    ensures ConstrainAxis(a, k).weightMin <= 0.0 <= ConstrainAxis(a, k).weightMax
    ensures ConstrainAxis(a, k).weightMin <= ConstrainAxis(a, k).weightMax
  {
    assert k / a.epsilon > 0.0;
  }

  /** A-priori bounds disjoint from the derived ones leave an empty interval:
      the clamping alone does not guarantee weightMin <= weightMax. */
  lemma DisjointBoundsGiveEmptyInterval()
    ensures var c := ConstrainAxis(AxisStats(1.0, 0.0, 1.0, 1.0, 5.0, 6.0), 1.0);
            c.weightMin > c.weightMax
  {
  }

  /** Constraints for every input axis, as set on the tessellation, the
      approximation ALNs and the average ALN; linear regression has already
      rejected any zero epsilon. */
  function ConstrainAll(axes: seq<AxisStats>, k: real): seq<AxisConstraint>
    requires forall m :: 0 <= m < |axes| ==> axes[m].epsilon != 0.0
  {
    seq(|axes|, m requires 0 <= m < |axes| => ConstrainAxis(axes[m], k))
  }

  /** The linear-regression set-up: axes are constrained in order, and the
      first axis with zero epsilon stops the run. */
  method ConfigureAxes(axes: seq<AxisStats>, sqrt2: real, stdevOut: real)
    returns (r: Result<seq<AxisConstraint>, ConfigError>)
    ensures r.Err? <==> exists m :: 0 <= m < |axes| && axes[m].epsilon == 0.0
    ensures r.Err? ==> r.error.axis < |axes| && axes[r.error.axis].epsilon == 0.0
    ensures r.Err? ==> forall m :: 0 <= m < r.error.axis ==> axes[m].epsilon != 0.0
    ensures r.Ok? ==> r.value == ConstrainAll(axes, SlopeScale(sqrt2, stdevOut))
  {
    var k := SlopeScale(sqrt2, stdevOut);
    var cs: seq<AxisConstraint> := [];
    var m := 0;
    while m < |axes|
      invariant 0 <= m <= |axes|
      invariant forall j :: 0 <= j < m ==> axes[j].epsilon != 0.0
      invariant |cs| == m
      invariant forall j :: 0 <= j < m ==> cs[j] == ConstrainAxis(axes[j], k)
    {
      if axes[m].epsilon == 0.0 {
        return Err(ConstantAxis(m));
      }
      cs := cs + [ConstrainAxis(axes[m], k)];
      m := m + 1;
    }
    return Ok(cs);
  }
}
