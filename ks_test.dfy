/**
 * The two-sample Kolmogorov-Smirnov distance: the largest absolute gap
 * between the empirical cumulative distribution functions of two samples,
 * computed, as scipy's ks_2samp does, at every point of the pooled sample.
 */
module KolmogorovSmirnov {
  import opened Descriptive

  /** Number of values in xs that are at most t. */
  function CountAtMost(xs: seq<real>, t: real): (n: nat)
    ensures n <= |xs|
  {
    if |xs| == 0 then 0
    else (if xs[0] <= t then 1 else 0) + CountAtMost(xs[1..], t)
  }

  /** Empirical CDF of a non-empty sample at t: the share of values at most t. */
  function Ecdf(xs: seq<real>, t: real): (p: real)
    requires |xs| > 0
    ensures 0.0 <= p <= 1.0
  {
    CountAtMost(xs, t) as real / |xs| as real
  }

  /** Distance between the two empirical CDFs at t. */
  function Gap(a: seq<real>, b: seq<real>, t: real): (g: real)
    requires |a| > 0 && |b| > 0
    ensures 0.0 <= g <= 1.0
  {
    Abs(Ecdf(a, t) - Ecdf(b, t))
  }

  /** Largest gap over the given points; 0 when there are none. */
  function MaxGap(a: seq<real>, b: seq<real>, pts: seq<real>): (d: real)
    requires |a| > 0 && |b| > 0
    ensures 0.0 <= d <= 1.0
  {
    if |pts| == 0 then 0.0
    else
      var rest := MaxGap(a, b, pts[1..]);
      var g := Gap(a, b, pts[0]);
      if g >= rest then g else rest
  }

  /** MaxGap is the largest gap at the given points, and is attained at one of them. */
  lemma {:induction false} MaxGapIsMax(a: seq<real>, b: seq<real>, pts: seq<real>)
    requires |a| > 0 && |b| > 0
    ensures forall i :: 0 <= i < |pts| ==> Gap(a, b, pts[i]) <= MaxGap(a, b, pts)
    ensures |pts| > 0 ==> exists i :: 0 <= i < |pts| && MaxGap(a, b, pts) == Gap(a, b, pts[i])
  {
    if |pts| > 0 {
      MaxGapIsMax(a, b, pts[1..]);
      assert forall i :: 1 <= i < |pts| ==> pts[i] == pts[1..][i - 1];
      if |pts| > 1 {
        var j :| 0 <= j < |pts[1..]| && MaxGap(a, b, pts[1..]) == Gap(a, b, pts[1..][j]);
        assert pts[1..][j] == pts[j + 1];
      }
    }
  }

  /** The KS statistic of two non-empty samples, as ks_2samp computes it. */
  function KsStatistic(a: seq<real>, b: seq<real>): (d: real)
    requires |a| > 0 && |b| > 0
    ensures 0.0 <= d <= 1.0
  {
    MaxGap(a, b, a + b)
  }

  /** An upper bound of the gaps that is itself one of them is the maximum. */
  lemma MaxGapUnique(a: seq<real>, b: seq<real>, pts: seq<real>, d: real)
    requires |a| > 0 && |b| > 0 && |pts| > 0
    requires forall i :: 0 <= i < |pts| ==> Gap(a, b, pts[i]) <= d
    requires exists i :: 0 <= i < |pts| && d == Gap(a, b, pts[i])
    ensures MaxGap(a, b, pts) == d
  {
    MaxGapIsMax(a, b, pts);
  }

  /** When every point of p also occurs in q, the maximum over p is at most the maximum over q. */
  lemma MaxGapCovered(a: seq<real>, b: seq<real>, p: seq<real>, q: seq<real>)
    requires |a| > 0 && |b| > 0 && |p| > 0
    requires forall t :: t in p ==> t in q
    ensures MaxGap(a, b, p) <= MaxGap(a, b, q)
  {
    MaxGapIsMax(a, b, p);
    MaxGapIsMax(a, b, q);
    var i :| 0 <= i < |p| && MaxGap(a, b, p) == Gap(a, b, p[i]);
    assert p[i] in q;
    var k :| 0 <= k < |q| && q[k] == p[i];
  }

  /** The maximum gap depends only on which points are offered, not on their order or repetition. */
  lemma MaxGapSamePoints(a: seq<real>, b: seq<real>, p: seq<real>, q: seq<real>)
    requires |a| > 0 && |b| > 0
    requires forall t :: t in p <==> t in q
    ensures MaxGap(a, b, p) == MaxGap(a, b, q)
  {
    if |p| > 0 {
      assert p[0] in p;
    }
    if |q| > 0 {
      assert q[0] in q;
    }
    if |p| > 0 {
      MaxGapCovered(a, b, p, q);
      MaxGapCovered(a, b, q, p);
    }
  }

  lemma {:induction false} MaxGapSwap(a: seq<real>, b: seq<real>, pts: seq<real>)
    requires |a| > 0 && |b| > 0
    ensures MaxGap(a, b, pts) == MaxGap(b, a, pts)
  {
    if |pts| > 0 {
      MaxGapSwap(a, b, pts[1..]);
      assert Gap(a, b, pts[0]) == Gap(b, a, pts[0]);
    }
  }

  /** The KS statistic is symmetric in its two samples. */
  lemma KsSymmetric(a: seq<real>, b: seq<real>)
    requires |a| > 0 && |b| > 0
    ensures KsStatistic(a, b) == KsStatistic(b, a)
  {
    MaxGapSwap(a, b, a + b);
    MaxGapSamePoints(b, a, a + b, b + a);
  }

  /** A sample compared with itself has distance 0. */
  lemma KsIdenticalIsZero(a: seq<real>)
    requires |a| > 0
    ensures KsStatistic(a, a) == 0.0
  {
    MaxGapIsMax(a, a, a + a);
    var i :| 0 <= i < |a + a| && KsStatistic(a, a) == Gap(a, a, (a + a)[i]);
  }

  lemma CountAtMostConcat(x: seq<real>, y: seq<real>, t: real)
    ensures CountAtMost(x + y, t) == CountAtMost(x, t) + CountAtMost(y, t)
  {
    if |x| > 0 {
      assert (x + y)[0] == x[0];
      assert (x + y)[1..] == x[1..] + y;
      CountAtMostConcat(x[1..], y, t);
      assert CountAtMost(x + y, t) == (if x[0] <= t then 1 else 0) + CountAtMost(x[1..] + y, t);
    } else {
      assert x + y == y;
    }
  }

  /** Taking the value at index k out of y removes one copy of it from the multiset and from the count. */
  lemma RemoveAt(y: seq<real>, k: nat, t: real)
    requires k < |y|
    ensures multiset(y[..k] + y[k + 1..]) == multiset(y) - multiset{y[k]}
    ensures CountAtMost(y, t) == CountAtMost(y[..k] + y[k + 1..], t) + (if y[k] <= t then 1 else 0)
  {
    assert y == y[..k] + [y[k]] + y[k + 1..];
    CountAtMostConcat(y[..k] + [y[k]], y[k + 1..], t);
    CountAtMostConcat(y[..k], [y[k]], t);
    CountAtMostConcat(y[..k], y[k + 1..], t);
  }

  lemma DropFirst(x: seq<real>)
    requires |x| > 0
    ensures multiset(x[1..]) == multiset(x) - multiset{x[0]}
  {
    assert x == [x[0]] + x[1..];
  }

  /** The count below t depends only on the multiset of values, not on their order. */
  lemma {:induction false} CountAtMostPermutation(x: seq<real>, y: seq<real>, t: real)
    requires multiset(x) == multiset(y)
    ensures CountAtMost(x, t) == CountAtMost(y, t)
  {
    if |x| > 0 {
      var v := x[0];
      assert v in multiset(y);
      var k :| 0 <= k < |y| && y[k] == v;
      var rest := y[..k] + y[k + 1..];
      RemoveAt(y, k, t);
      DropFirst(x);
      CountAtMostPermutation(x[1..], rest, t);
    } else {
      assert |y| == |multiset(y)|;
    }
  }

  /** Reordering either sample leaves the KS statistic unchanged. */
  lemma KsPermutationInvariant(a: seq<real>, a': seq<real>, b: seq<real>)
    requires |a| > 0 && |b| > 0
    requires multiset(a) == multiset(a')
    ensures |a'| > 0 && KsStatistic(a, b) == KsStatistic(a', b)
  {
    assert |a'| == |multiset(a')| == |multiset(a)| == |a|;
    MaxGapPermutation(a, a', b, a + b);
    forall t | t in a + b ensures t in a' + b {
      if t in a { assert t in multiset(a'); }
    }
    forall t | t in a' + b ensures t in a + b {
      if t in a' { assert t in multiset(a); }
    }
    MaxGapSamePoints(a', b, a + b, a' + b);
  }

  lemma {:induction false} MaxGapPermutation(a: seq<real>, a': seq<real>, b: seq<real>, pts: seq<real>)
    requires |a| > 0 && |a'| == |a| && |b| > 0
    requires multiset(a) == multiset(a')
    ensures MaxGap(a, b, pts) == MaxGap(a', b, pts)
  {
    if |pts| > 0 {
      MaxGapPermutation(a, a', b, pts[1..]);
      CountAtMostPermutation(a, a', pts[0]);
      assert Gap(a, b, pts[0]) == Gap(a', b, pts[0]);
    }
  }

  /** Largest point of pts that is at most t. */
  function LargestAtMost(pts: seq<real>, t: real): (p: real)
    requires exists i :: 0 <= i < |pts| && pts[i] <= t
    ensures p in pts && p <= t
    ensures forall i :: 0 <= i < |pts| && pts[i] <= t ==> pts[i] <= p
  {
    if pts[0] <= t && forall i :: 1 <= i < |pts| ==> !(pts[i] <= t) then pts[0]
    else
      assert exists i :: 0 <= i < |pts[1..]| && pts[1..][i] <= t by {
        var i :| 0 <= i < |pts| && pts[i] <= t && (i == 0 ==> exists j :: 1 <= j < |pts| && pts[j] <= t);
        if i == 0 {
          var j :| 1 <= j < |pts| && pts[j] <= t;
          assert pts[1..][j - 1] <= t;
        } else {
          assert pts[1..][i - 1] <= t;
        }
      }
      var rest := LargestAtMost(pts[1..], t);
      assert forall i :: 1 <= i < |pts| ==> pts[i] == pts[1..][i - 1];
      if pts[0] <= t && pts[0] > rest then pts[0] else rest
  }

  /** Between p and t no value of xs lies, so the count is the same at both. */
  lemma {:induction false} CountAtMostFlat(xs: seq<real>, p: real, t: real)
    requires p <= t
    requires forall i :: 0 <= i < |xs| ==> !(p < xs[i] <= t)
    ensures CountAtMost(xs, t) == CountAtMost(xs, p)
  {
    if |xs| > 0 {
      assert forall i :: 0 <= i < |xs| - 1 ==> xs[1..][i] == xs[i + 1];
      CountAtMostFlat(xs[1..], p, t);
    }
  }

  /** No value of xs is at most t, so the count there is zero. */
  lemma {:induction false} CountAtMostNone(xs: seq<real>, t: real)
    requires forall i :: 0 <= i < |xs| ==> !(xs[i] <= t)
    ensures CountAtMost(xs, t) == 0
  {
    if |xs| > 0 {
      assert forall i :: 0 <= i < |xs| - 1 ==> xs[1..][i] == xs[i + 1];
      CountAtMostNone(xs[1..], t);
    }
  }

  /** A gap at a point of the pooled sample is at most the KS statistic. */
  lemma GapAtSamplePoint(a: seq<real>, b: seq<real>, p: real)
    requires |a| > 0 && |b| > 0 && p in a + b
    ensures Gap(a, b, p) <= KsStatistic(a, b)
  {
    var pts := a + b;
    MaxGapIsMax(a, b, pts);
    var j :| 0 <= j < |pts| && pts[j] == p;
  }

  /** Below the smallest pooled value both CDFs are 0. */
  lemma GapBelowAllPoints(a: seq<real>, b: seq<real>, t: real)
    requires |a| > 0 && |b| > 0
    requires forall i :: 0 <= i < |a + b| ==> !((a + b)[i] <= t)
    ensures Gap(a, b, t) == 0.0
  {
    assert forall i :: 0 <= i < |a| ==> (a + b)[i] == a[i];
    assert forall i :: 0 <= i < |b| ==> (a + b)[|a| + i] == b[i];
    CountAtMostNone(a, t);
    CountAtMostNone(b, t);
  }

  /** Above a pooled value p with no pooled value in (p, t], the gap at t is the gap at p. */
  lemma GapFlatAbove(a: seq<real>, b: seq<real>, p: real, t: real)
    requires |a| > 0 && |b| > 0 && p <= t
    requires forall i :: 0 <= i < |a + b| && (a + b)[i] <= t ==> (a + b)[i] <= p
    ensures Gap(a, b, t) == Gap(a, b, p)
  {
    assert forall i :: 0 <= i < |a| ==> (a + b)[i] == a[i];
    assert forall i :: 0 <= i < |b| ==> (a + b)[|a| + i] == b[i];
    CountAtMostFlat(a, p, t);
    CountAtMostFlat(b, p, t);
  }

  /**
   * The maximum over the pooled sample is the supremum over every real t:
   * the empirical CDFs only change at sample points.
   */
  lemma KsIsSupremum(a: seq<real>, b: seq<real>, t: real)
    requires |a| > 0 && |b| > 0
    ensures Gap(a, b, t) <= KsStatistic(a, b)
  {
    var pts := a + b;
    if exists i :: 0 <= i < |pts| && pts[i] <= t {
      var p := LargestAtMost(pts, t);
      GapFlatAbove(a, b, p, t);
      GapAtSamplePoint(a, b, p);
    } else {
      GapBelowAllPoints(a, b, t);
    }
  }
}
