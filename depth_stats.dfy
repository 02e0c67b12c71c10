/** The depth statistics of a region of interest (convert_bb_to_3d, lines 224-225 and
    309-321): the "any depth" gate, the mean of the valid positive samples, the
    consensus mask around that mean and its extent. */
module DepthStats {
  import opened Floats
  import opened Messages

  /** np.any(roi): some sample is non-zero; NaN and infinities count as non-zero. */
  predicate AnyNonZero(roi: seq<Float>) {
    exists i :: 0 <= i < |roi| && roi[i] != Fin(0.0)
  }

  /** np.any(np.isfinite(roi)) once NaN and infinities are masked out. */
  predicate AnyFinite(roi: seq<Float>) {
    exists i :: 0 <= i < |roi| && roi[i].Fin?
  }

  /** np.any(roi != 0) once NaN and infinities are masked out. */
  predicate AnyFiniteNonZero(roi: seq<Float>) {
    exists i :: 0 <= i < |roi| && roi[i].Fin? && roi[i].r != 0.0
  }

  /** roi[roi > 0] over the masked ROI: the finite, strictly positive samples, in order. */
  function FinitePositive(roi: seq<Float>): (pos: seq<real>)
    ensures |pos| <= |roi|
    ensures forall x :: x in pos <==> Fin(x) in roi && x > 0.0
  {
    if roi == [] then []
    else (if roi[0].Fin? && roi[0].r > 0.0 then [roi[0].r] else []) + FinitePositive(roi[1..])
  }

  /** Each finite positive sample occurs in roi[roi > 0] as often as in the ROI, so the
      mean of line 311 weighs every sample once. */
  lemma {:induction false} FinitePositiveCounts(roi: seq<Float>)
    ensures forall x :: multiset(FinitePositive(roi))[x] == if x > 0.0 then multiset(roi)[Fin(x)] else 0
  {
    if roi != [] {
      FinitePositiveCounts(roi[1..]);
      assert roi == [roi[0]] + roi[1..];
    }
  }

  function Sum(xs: seq<real>): real {
    if xs == [] then 0.0 else xs[0] + Sum(xs[1..])
  }

  function Mean(xs: seq<real>): real
    requires xs != []
  {
    Sum(xs) / |xs| as real
  }

  /** roi[np.abs(roi - mean) <= threshold]: every finite sample within the threshold of
      the mean, zero samples included. */
  function WithinThreshold(roi: seq<Float>, mean: real, threshold: real): (kept: seq<real>)
    ensures |kept| <= |roi|
    ensures forall x :: x in kept <==> Fin(x) in roi && Abs(x - mean) <= threshold
  {
    if roi == [] then []
    else
      (if roi[0].Fin? && Abs(roi[0].r - mean) <= threshold then [roi[0].r] else [])
      + WithinThreshold(roi[1..], mean, threshold)
  }

  /** np.min. */
  function MinOf(xs: seq<real>): (m: real)
    requires xs != []
    ensures m in xs
    ensures forall x :: x in xs ==> m <= x
  {
    if |xs| == 1 then xs[0]
    else
      assert xs == [xs[0]] + xs[1..];
      var rest := MinOf(xs[1..]);
      if xs[0] <= rest then xs[0] else rest
  }

  /** np.max. */
  function MaxOf(xs: seq<real>): (m: real)
    requires xs != []
    ensures m in xs
    ensures forall x :: x in xs ==> x <= m
  {
    if |xs| == 1 then xs[0]
    else
      assert xs == [xs[0]] + xs[1..];
      var rest := MaxOf(xs[1..]);
      if rest <= xs[0] then xs[0] else rest
  }

  lemma {:induction false} SumBounds(xs: seq<real>, lo: real, hi: real)
    requires forall x :: x in xs ==> lo <= x <= hi
    ensures |xs| as real * lo <= Sum(xs) <= |xs| as real * hi
  {
    if xs != [] {
      assert xs[0] in xs;
      forall x | x in xs[1..]
        ensures lo <= x <= hi
      {
        assert x in xs;
      }
      SumBounds(xs[1..], lo, hi);
      assert |xs| as real * lo == lo + |xs[1..]| as real * lo;
      assert |xs| as real * hi == hi + |xs[1..]| as real * hi;
    }
  }

  /** The mean lies between the smallest and the largest sample. */
  lemma MeanBetweenMinAndMax(xs: seq<real>)
    requires xs != []
    ensures MinOf(xs) <= Mean(xs) <= MaxOf(xs)
  {
    SumBounds(xs, MinOf(xs), MaxOf(xs));
    DivideBounds(|xs| as real, MinOf(xs), Sum(xs), MaxOf(xs));
  }

  lemma DivideBounds(n: real, lo: real, s: real, hi: real)
    requires 0.0 < n && n * lo <= s <= n * hi
    ensures lo <= s / n <= hi
  {
    var q := s / n;
    assert s == n * q;
  }

  /** What lines 309-321 compute from a ROI: the mean, and the smallest and largest
      sample of the consensus mask. */
  datatype Stats = Stats(mean: real, zMin: real, zMax: real)

  function StatsOf(roi: seq<Float>, threshold: real): Option<Stats> {
    if !(AnyFinite(roi) && AnyFiniteNonZero(roi)) then None
    else
      var pos := FinitePositive(roi);
      // np.mean of an empty selection is masked (or NaN); no sample is within the
      // threshold of it, so the consensus mask is empty.
      if pos == [] then None
      else
        var mean := Mean(pos);
        var kept := WithinThreshold(roi, mean, threshold);
        if kept == [] then None
        else Some(Stats(mean, MinOf(kept), MaxOf(kept)))
  }

  /** Statistics exist exactly when some sample is finite and positive and some finite
      sample lies within the threshold of their mean; the mean is then that of the
      finite positive samples, zMin and zMax are the smallest and largest consensus
      samples, and the extent zMax - zMin lies in [0, 2 * threshold]. */
  lemma StatsOfSpec(roi: seq<Float>, threshold: real)
    ensures StatsOf(roi, threshold).Some? <==>
      FinitePositive(roi) != [] && WithinThreshold(roi, Mean(FinitePositive(roi)), threshold) != []
    ensures StatsOf(roi, threshold).Some? ==>
      var s := StatsOf(roi, threshold).value;
      && s.mean == Mean(FinitePositive(roi))
      && 0.0 < s.mean
      && Fin(s.zMin) in roi && Fin(s.zMax) in roi
      && Abs(s.zMin - s.mean) <= threshold && Abs(s.zMax - s.mean) <= threshold
      && (forall x :: Fin(x) in roi && Abs(x - s.mean) <= threshold ==> s.zMin <= x <= s.zMax)
      && 0.0 <= s.zMax - s.zMin <= 2.0 * threshold
  {
    var pos := FinitePositive(roi);
    if pos != [] {
      PositiveSamplesPass(roi);
      MeanOfPositive(pos);
      var kept := WithinThreshold(roi, Mean(pos), threshold);
      if kept != [] {
        ConsensusBounds(roi, Mean(pos), threshold);
      }
    }
  }

  /** A finite positive sample passes the gate of line 310. */
  lemma PositiveSamplesPass(roi: seq<Float>)
    requires FinitePositive(roi) != []
    ensures AnyFinite(roi) && AnyFiniteNonZero(roi)
  {
    var pos := FinitePositive(roi);
    assert pos[0] in pos;
    var i :| 0 <= i < |roi| && roi[i] == Fin(pos[0]);
  }

  /** The mean of positive values is positive. */
  lemma MeanOfPositive(pos: seq<real>)
    requires pos != [] && forall x :: x in pos ==> x > 0.0
    ensures 0.0 < Mean(pos)
  {
    MeanBetweenMinAndMax(pos);
    assert MinOf(pos) in pos;
  }

  /** np.min and np.max of the consensus samples are consensus samples that bound every
      other one, so their difference lies in [0, 2 * threshold]. */
  lemma ConsensusBounds(roi: seq<Float>, mean: real, threshold: real)
    requires WithinThreshold(roi, mean, threshold) != []
    ensures
      var kept := WithinThreshold(roi, mean, threshold);
      && Fin(MinOf(kept)) in roi && Fin(MaxOf(kept)) in roi
      && Abs(MinOf(kept) - mean) <= threshold && Abs(MaxOf(kept) - mean) <= threshold
      && (forall x :: Fin(x) in roi && Abs(x - mean) <= threshold ==> MinOf(kept) <= x <= MaxOf(kept))
      && 0.0 <= MaxOf(kept) - MinOf(kept) <= 2.0 * threshold
  {
    var kept := WithinThreshold(roi, mean, threshold);
    var lo, hi := MinOf(kept), MaxOf(kept);
    assert lo in kept && hi in kept;
    forall x | Fin(x) in roi && Abs(x - mean) <= threshold
      ensures lo <= x <= hi
    {
      assert x in kept;
    }
    ExtentBound(lo, hi, mean, threshold);
  }

  lemma ExtentBound(lo: real, hi: real, mean: real, threshold: real)
    requires lo <= hi && Abs(lo - mean) <= threshold && Abs(hi - mean) <= threshold
    ensures 0.0 <= hi - lo <= 2.0 * threshold
  {
  }

  /** A non-empty sequence of copies of c has minimum, maximum and mean c. */
  lemma StatsOfConstant(xs: seq<real>, c: real)
    requires xs != [] && forall x :: x in xs ==> x == c
    ensures MinOf(xs) == c && MaxOf(xs) == c && Mean(xs) == c
  {
    MeanBetweenMinAndMax(xs);
  }

  /** A non-empty ROI whose samples all equal c > 0 has mean c and extent 0. */
  lemma StatsOfUniform(roi: seq<Float>, c: real, threshold: real)
    requires roi != [] && 0.0 < c && 0.0 <= threshold
    requires forall x :: x in roi ==> x == Fin(c)
    ensures StatsOf(roi, threshold) == Some(Stats(c, c, c))
  {
    var pos := FinitePositive(roi);
    assert roi[0] in roi;
    assert c in pos;
    assert AnyFinite(roi) && AnyFiniteNonZero(roi);
    StatsOfConstant(pos, c);
    var kept := WithinThreshold(roi, c, threshold);
    assert c in kept;
    StatsOfConstant(kept, c);
  }

  /** Zero samples are not excluded from the consensus mask: beside a single 0.2 m
      sample, a 0 sample lies within 0.3 of the mean and stretches the extent to 0.2. */
  lemma ZeroSampleJoinsConsensus()
    ensures StatsOf([Fin(0.2), Fin(0.0)], 0.3) == Some(Stats(0.2, 0.0, 0.2))
  {
    var roi := [Fin(0.2), Fin(0.0)];
    assert roi[0].Fin? && roi[0].r != 0.0;
    assert FinitePositive(roi) == [0.2] by {
      assert FinitePositive(roi[1..]) == [] by {
        assert roi[1..][1..] == [];
      }
    }
    assert Mean([0.2]) == 0.2;
    assert WithinThreshold(roi, 0.2, 0.3) == [0.2, 0.0] by {
      assert roi[1..][1..] == [];
    }
  }
}
