/**
 * Descriptive statistics of one numeric column, as the detector's reference
 * profile uses them: sum, mean, minimum, maximum, sample variance and sample
 * standard deviation (divisor n - 1), over exact reals.
 */
module Descriptive {

  function Abs(x: real): (r: real)
    ensures r >= 0.0 && (r == x || r == -x)
  {
    if x < 0.0 then -x else x
  }

  function Sum(xs: seq<real>): real
  {
    if |xs| == 0 then 0.0 else xs[0] + Sum(xs[1..])
  }

  /** Arithmetic mean; pandas gives NaN for an empty column, which is not a real. */
  function Mean(xs: seq<real>): real
    requires |xs| > 0
  {
    Sum(xs) / |xs| as real
  }

  function Min(xs: seq<real>): (m: real)
    requires |xs| > 0
    ensures m in xs
    ensures forall i :: 0 <= i < |xs| ==> m <= xs[i]
  {
    if |xs| == 1 then xs[0]
    else
      var rest := Min(xs[1..]);
      if xs[0] <= rest then xs[0] else rest
  }

  function Max(xs: seq<real>): (m: real)
    requires |xs| > 0
    ensures m in xs
    ensures forall i :: 0 <= i < |xs| ==> xs[i] <= m
  {
    if |xs| == 1 then xs[0]
    else
      var rest := Max(xs[1..]);
      if xs[0] >= rest then xs[0] else rest
  }

  /** Every value lies in [lo, hi], so the sum lies in [n * lo, n * hi]. */
  lemma {:induction false} SumBounds(xs: seq<real>, lo: real, hi: real)
    requires forall i :: 0 <= i < |xs| ==> lo <= xs[i] <= hi
    ensures |xs| as real * lo <= Sum(xs) <= |xs| as real * hi
  {
    if |xs| > 0 {
      SumBounds(xs[1..], lo, hi);
    }
  }

  lemma DivideBounds(s: real, n: real, lo: real, hi: real)
    requires n > 0.0 && n * lo <= s <= n * hi
    ensures lo <= s / n <= hi
  {
    var q := s / n;
    assert q * n == s;
  }

  /** Bounds on every value are bounds on the mean. */
  lemma MeanBetween(xs: seq<real>, lo: real, hi: real)
    requires |xs| > 0
    requires forall i :: 0 <= i < |xs| ==> lo <= xs[i] <= hi
    ensures lo <= Mean(xs) <= hi
  {
    SumBounds(xs, lo, hi);
    DivideBounds(Sum(xs), |xs| as real, lo, hi);
  }

  /** The mean of a non-empty column lies between its minimum and its maximum. */
  lemma MeanWithinRange(xs: seq<real>)
    requires |xs| > 0
    ensures Min(xs) <= Mean(xs) <= Max(xs)
  {
    MeanBetween(xs, Min(xs), Max(xs));
  }

  /** A column whose values are all c has mean c. */
  lemma MeanOfConstant(xs: seq<real>, c: real)
    requires |xs| > 0
    requires forall i :: 0 <= i < |xs| ==> xs[i] == c
    ensures Mean(xs) == c
  {
    MeanBetween(xs, c, c);
  }

  /** Product of two reals, with the sign facts the proofs below rely on. */
  function Product(a: real, b: real): (r: real)
    ensures a > 0.0 && b > 0.0 ==> r > 0.0
    ensures a < 0.0 && b < 0.0 ==> r > 0.0
    ensures a == 0.0 || b == 0.0 ==> r == 0.0
    ensures a >= 1.0 && b >= 0.0 ==> r >= b
  {
    a * b
  }

  function Square(d: real): (s: real)
    ensures s >= 0.0
    ensures s > 0.0 <==> d != 0.0
  {
    Product(d, d)
  }

  /** Sum of squared deviations from m: zero exactly when every value equals m. */
  function SumSquaredDeviations(xs: seq<real>, m: real): (r: real)
    ensures r >= 0.0
    ensures r == 0.0 <==> forall i :: 0 <= i < |xs| ==> xs[i] == m
  {
    if |xs| == 0 then 0.0
    else
      var rest := SumSquaredDeviations(xs[1..], m);
      assert (forall i :: 0 <= i < |xs| ==> xs[i] == m)
        <==> (xs[0] == m && forall i :: 0 <= i < |xs| - 1 ==> xs[1..][i] == m) by {
        if xs[0] == m && forall i :: 0 <= i < |xs| - 1 ==> xs[1..][i] == m {
          forall i | 0 <= i < |xs| ensures xs[i] == m {
            if i > 0 { assert xs[i] == xs[1..][i - 1]; }
          }
        }
      }
      Square(xs[0] - m) + rest
  }

  /** Sample variance (divisor n - 1, the pandas default), for at least two values. */
  function SampleVariance(xs: seq<real>): (v: real)
    requires |xs| >= 2
    ensures v >= 0.0
  {
    SumSquaredDeviations(xs, Mean(xs)) / (|xs| - 1) as real
  }

  /** Number of bisection steps the square root takes. */
  const SqrtSteps: nat := 64

  function Pow2(k: nat): (p: real)
    ensures p >= 1.0
  {
    if k == 0 then 1.0 else 2.0 * Pow2(k - 1)
  }

  /** Either half of [lo, hi] after steps - 1 more halvings is as wide as [lo, hi] after steps. */
  lemma HalfWidth(lo: real, hi: real, steps: nat)
    requires lo <= hi && steps > 0
    ensures var mid := (lo + hi) / 2.0;
      && lo <= mid <= hi
      && (mid - lo) / Pow2(steps - 1) == (hi - lo) / Pow2(steps)
      && (hi - mid) / Pow2(steps - 1) == (hi - lo) / Pow2(steps)
  {
    var mid := (lo + hi) / 2.0;
    var p := Pow2(steps - 1);
    assert mid - lo == hi - mid == (hi - lo) / 2.0;
    assert ((hi - lo) / 2.0) / p == (hi - lo) / (2.0 * p);
  }

  /**
   * Bisection for the square root of v inside [lo, hi]: the result s is an
   * upper bound for the root (s * s >= v) and lies within (hi - lo) / 2^steps
   * of a lower bound l (l * l <= v).
   */
  function Bisect(v: real, lo: real, hi: real, steps: nat): (s: real)
    requires 0.0 <= lo <= hi
    requires Square(lo) <= v <= Square(hi)
    ensures lo <= s <= hi && Square(s) >= v
    ensures exists l :: lo <= l <= s && Square(l) <= v && s - l <= (hi - lo) / Pow2(steps)
    decreases steps
  {
    if steps == 0 then
      assert Square(lo) <= v && hi - lo <= (hi - lo) / Pow2(0);
      hi
    else
      var mid := (lo + hi) / 2.0;
      HalfWidth(lo, hi, steps);
      if Square(mid) >= v then
        Bisect(v, lo, mid, steps - 1)
      else
        Bisect(v, mid, hi, steps - 1)
  }

  /** 2^k grows at least as fast as k + 1. */
  lemma {:induction false} Pow2AboveIndex(k: nat)
    ensures Pow2(k) >= (k + 1) as real
  {
    if k > 0 {
      Pow2AboveIndex(k - 1);
    }
  }

  /** The exponent e >= k with 4^e <= w < 4^(e + 1), found by counting upward from k. */
  function RootExponent(w: real, k: nat): (e: nat)
    requires Square(Pow2(k)) <= w
    ensures k <= e && Square(Pow2(e)) <= w < Square(Pow2(e + 1))
    decreases w.Floor - k
  {
    if w < Square(Pow2(k + 1)) then k
    else
      Pow2AboveIndex(k + 1);
      assert Square(Pow2(k + 1)) >= Pow2(k + 1);
      RootExponent(w, k + 1)
  }

  lemma SquareDouble(x: real)
    ensures Square(2.0 * x) == 4.0 * Square(x)
  {
  }

  /** Multiplying both sides by a positive factor keeps a strict or weak order. */
  lemma ScaleOrder(a: real, b: real, c: real)
    requires c > 0.0
    ensures a < b ==> c * a < c * b
    ensures a <= b ==> c * a <= c * b
  {
    assert c * b - c * a == Product(c, b - a);
  }

  lemma SquareReciprocal(p: real)
    requires p > 0.0
    ensures Square(1.0 / p) * Square(p) == 1.0 && Square(p) * Square(1.0 / p) == 1.0
  {
    var r := 1.0 / p;
    assert r * p == 1.0;
    assert (r * r) * (p * p) == (r * p) * (r * p);
  }

  /** If t a = 1 and x v = 1 for positive t and v, then a <= x gives t >= v, and a < x gives t > v. */
  lemma InverseOrder(a: real, x: real, t: real, v: real)
    requires t > 0.0 && v > 0.0 && t * a == 1.0 && x * v == 1.0
    ensures a <= x ==> v <= t
    ensures a < x ==> v < t
  {
    ScaleOrder(a, x, t);
    ScaleOrder(1.0, t * x, v);
    assert v * (t * x) == t * (x * v);
  }

  lemma ReciprocalProduct(v: real)
    requires v > 0.0
    ensures v * (1.0 / v) == 1.0 && (1.0 / v) * v == 1.0
  {
  }

  /** From p^2 <= 1 / v: v <= (1/p)^2. */
  lemma ReciprocalUpper(v: real, p: real)
    requires v > 0.0 && p > 0.0
    requires Square(p) <= 1.0 / v
    ensures v <= Square(1.0 / p)
  {
    ReciprocalProduct(v);
    SquareReciprocal(p);
    InverseOrder(Square(p), 1.0 / v, Square(1.0 / p), v);
  }

  /** From 1 / v < q^2: (1/q)^2 < v. */
  lemma ReciprocalLower(v: real, q: real)
    requires v > 0.0 && q > 0.0
    requires 1.0 / v < Square(q)
    ensures Square(1.0 / q) < v
  {
    ReciprocalProduct(v);
    SquareReciprocal(q);
    InverseOrder(1.0 / v, Square(q), v, Square(1.0 / q));
  }

  /** Halving the reciprocal of a power of two gives the reciprocal of the next one. */
  lemma ReciprocalHalves(e: nat)
    ensures 1.0 / Pow2(e) == 2.0 * (1.0 / Pow2(e + 1))
  {
    var p := Pow2(e);
    assert Pow2(e + 1) == 2.0 * p;
  }

  /** A power of two lo, possibly below one, with lo^2 <= v <= (2 lo)^2. */
  function RootBracket(v: real): (lo: real)
    requires v > 0.0
    ensures lo > 0.0 && Square(lo) <= v <= Square(2.0 * lo)
  {
    if v >= 1.0 then
      var e := RootExponent(v, 0);
      SquareDouble(Pow2(e));
      Pow2(e)
    else
      var e := RootExponent(1.0 / v, 0);
      ReciprocalUpper(v, Pow2(e));
      ReciprocalLower(v, Pow2(e + 1));
      ReciprocalHalves(e);
      1.0 / Pow2(e + 1)
  }

  lemma DivideMonotone(a: real, b: real, p: real)
    requires a <= b && p > 0.0
    ensures a / p <= b / p
  {
    assert b / p - a / p == (b - a) / p;
  }

  /** A lower bound within lo / p of s, with lo below it, is also within l / p of s. */
  lemma RelativeWitness(v: real, lo: real, s: real, p: real)
    requires lo > 0.0 && p > 0.0
    requires exists l :: lo <= l <= s && Square(l) <= v && s - l <= (2.0 * lo - lo) / p
    ensures exists l :: 0.0 <= l <= s && Square(l) <= v && s - l <= l / p
  {
    var l :| lo <= l <= s && Square(l) <= v && s - l <= (2.0 * lo - lo) / p;
    DivideMonotone(lo, l, p);
  }

  /**
   * The root of v found by bisecting a doubling bracket [lo, 2 lo]: an upper
   * bound of the root, within l / 2^steps of a lower bound l, so the error is
   * relative to the root.
   */
  function BracketedRoot(v: real, lo: real, steps: nat): (s: real)
    requires lo > 0.0 && Square(lo) <= v <= Square(2.0 * lo)
    ensures lo <= s && Square(s) >= v
    ensures exists l :: 0.0 <= l <= s && Square(l) <= v && s - l <= l / Pow2(steps)
  {
    var s := Bisect(v, lo, 2.0 * lo, steps);
    RelativeWitness(v, lo, s, Pow2(steps));
    s
  }

  /**
   * Square root of a non-negative v: bisection inside a power-of-two bracket
   * [lo, 2 lo] around the root. The result is never below the exact root and
   * exceeds a lower bound l of it by at most l / 2^64, so its relative error
   * is at most 2^-64; it is zero exactly when v is zero.
   */
  function Sqrt(v: real): (s: real)
    requires v >= 0.0
    ensures s >= 0.0
    ensures s > 0.0 <==> v > 0.0
    ensures Square(s) >= v
    ensures exists l :: 0.0 <= l <= s && Square(l) <= v && s - l <= l / Pow2(SqrtSteps)
  {
    if v == 0.0 then
      assert 0.0 <= 0.0 <= 0.0 && Square(0.0) <= v && 0.0 - 0.0 <= 0.0 / Pow2(SqrtSteps);
      0.0
    else
      BracketedRoot(v, RootBracket(v), SqrtSteps)
  }

  /**
   * Sample standard deviation. pandas reports NaN for fewer than two values;
   * the model gives 0, which the detector treats the same way (not positive).
   */
  function Std(xs: seq<real>): (s: real)
    ensures s >= 0.0
  {
    if |xs| < 2 then 0.0 else Sqrt(SampleVariance(xs))
  }

  predicate AllEqual(xs: seq<real>)
  {
    forall i, j :: 0 <= i < |xs| && 0 <= j < |xs| ==> xs[i] == xs[j]
  }

  /** The standard deviation is positive exactly when the column holds two different values. */
  lemma StdPositiveIff(xs: seq<real>)
    ensures Std(xs) > 0.0 <==> !AllEqual(xs)
  {
    if |xs| >= 2 {
      var m := Mean(xs);
      var n1 := (|xs| - 1) as real;
      var ssd := SumSquaredDeviations(xs, m);
      assert SampleVariance(xs) > 0.0 <==> ssd > 0.0 by {
        assert SampleVariance(xs) == ssd / n1;
        if ssd > 0.0 { assert ssd / n1 > 0.0; }
      }
      if AllEqual(xs) {
        MeanOfConstant(xs, xs[0]);
        assert forall i :: 0 <= i < |xs| ==> xs[i] == m;
      } else {
        var i, j :| 0 <= i < |xs| && 0 <= j < |xs| && xs[i] != xs[j];
        assert xs[i] != m || xs[j] != m;
      }
    }
  }
}
