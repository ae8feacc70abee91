/** Allocation of variation: the total sum of squares, the sum of squares of
    every effect, the sum of squared residuals and the share of the total
    each of them explains. */
module Variance {
  import opened RealSums
  import opened Effects
  import opened Outcome
  import SignTable

  /** y has n rows of r replicates each. */
  predicate Rectangular(y: seq<seq<real>>, n: nat, r: nat)
  {
    |y| == n && forall i :: 0 <= i < |y| ==> |y[i]| == r
  }

  lemma {:induction false} FlattenLength(y: seq<seq<real>>, n: nat, r: nat)
    requires Rectangular(y, n, r)
    ensures |Flatten(y)| == n * r
  {
    if y != [] {
      FlattenLength(y[1..], n - 1, r);
    }
  }

  /** The mean of all observations. */
  function GrandMean(y: seq<seq<real>>): real
    requires |Flatten(y)| > 0
  {
    Sum(Flatten(y)) / |Flatten(y)| as real
  }

  /** SST: the squared deviations of all observations from their mean. */
  function TotalSS(y: seq<seq<real>>): (sst: real)
    requires |Flatten(y)| > 0
    ensures sst >= 0.0
  {
    SumSqDevNonNegative(Flatten(y), GrandMean(y));
    SumSqDev(Flatten(y), GrandMean(y))
  }

  /** The sum of squares of every column: effect squared times r times the
      number of runs, and 0 for the column I (the first). */
  function EffectSS(e: seq<real>, r: nat, n: nat): (ss: seq<real>)
    ensures |ss| == |e|
  {
    seq(|e|, c requires 0 <= c < |e| => if c == 0 then 0.0 else e[c] * e[c] * r as real * n as real)
  }

  /** SSE: the sum of the squared residuals. */
  function ErrorSS(res: seq<seq<real>>): (sse: real)
    ensures sse >= 0.0
  {
    SumSqNonNegative(Flatten(res));
    SumSq(Flatten(res))
  }

  /** The percentage of SST each column explains, then the error's share;
      undefined when SST is zero. */
  function Percentages(ss: seq<real>, sse: real, sst: real): (p: Option<seq<real>>)
    ensures p.Some? ==> |p.value| == |ss| + 1
  {
    if sst == 0.0 then None
    else Some(seq(|ss|, c requires 0 <= c < |ss| => 100.0 * ss[c] / sst) + [100.0 * sse / sst])
  }

  /** Each entry of ss but the first is the square of the matching entry
      of e times r times n. */
  predicate SquaresTimes(ss: seq<real>, e: seq<real>, r: nat, n: nat)
  {
    |ss| == |e| && forall c :: 0 < c < |ss| ==> ss[c] == e[c] * e[c] * r as real * n as real
  }

  /** Every column but I explains its squared effect times r and times the
      number of runs. */
  lemma EffectSSEntries(e: seq<real>, r: nat, n: nat)
    ensures SquaresTimes(EffectSS(e, r, n), e, r, n)
  {
  }

  /** p gives, for every sum of squares in ss and then for sse, 100 times
      it over sst. */
  predicate SharesOf(p: seq<real>, ss: seq<real>, sse: real, sst: real)
  {
    |p| == |ss| + 1 && sst != 0.0 &&
    (forall c :: 0 <= c < |ss| ==> p[c] == 100.0 * ss[c] / sst) &&
    p[|ss|] == 100.0 * sse / sst
  }

  /** Every percentage is 100 times its sum of squares over SST, and the
      last one is SSE's. */
  lemma PercentagesEntries(ss: seq<real>, sse: real, sst: real)
    ensures Percentages(ss, sse, sst).Some? ==> SharesOf(Percentages(ss, sse, sst).value, ss, sse, sst)
  {
  }

  // ----- the grand mean -----

  /** The total of every row. */
  function Totals(y: seq<seq<real>>): (t: seq<real>)
    ensures |t| == |y|
  {
    seq(|y|, i requires 0 <= i < |y| => Sum(y[i]))
  }

  lemma {:induction false} SumFlatten(y: seq<seq<real>>)
    ensures Sum(Flatten(y)) == Sum(Totals(y))
  {
    if y != [] {
      SumFlatten(y[1..]);
      assert Totals(y)[1..] == Totals(y[1..]);
      SumAppend(y[0], Flatten(y[1..]));
    }
  }

  /** m holds the mean of every row of r replicates: each row's total is r times its entry. */
  predicate MeansOf(y: seq<seq<real>>, r: nat, m: seq<real>)
  {
    Scaled(Totals(y), r as real, m)
  }

  lemma {:induction false} ScaleBack(mu: real, k: real, rr: real, s: real, mi: real)
    requires mu * k == s && k == rr && mi == mu
    ensures s == rr * mi
  {
  }

  /** The row means are means in the sense of MeansOf. */
  lemma {:induction false} MeansAreMeans(y: seq<seq<real>>, r: nat)
    requires r > 0 && Rectangular(y, |y|, r)
    ensures MeansOf(y, r, Means(y))
  {
    var m, t := Means(y), Totals(y);
    forall i | 0 <= i < |y| ensures t[i] == r as real * m[i] {
      ScaleBack(RowMean(y[i]), |y[i]| as real, r as real, Sum(y[i]), m[i]);
    }
  }

  /** r times the sum of the row means is the sum of all observations. */
  lemma {:induction false} SumMeans(y: seq<seq<real>>, r: nat)
    requires r > 0 && Rectangular(y, |y|, r)
    ensures r as real * Sum(Means(y)) == Sum(Flatten(y))
  {
    MeansAreMeans(y, r);
    SumScale(Means(y), r as real, Totals(y));
    SumFlatten(y);
  }

  lemma {:induction false} CancelFactor(s: real, n: real, r: real, a: real)
    requires n > 0.0 && r > 0.0 && r * a == s
    ensures s / (n * r) == a / n
  {
    assert s / (n * r) * (n * r) == r * a;
  }

  /** A total over n r observations that is r times the total of n means
      has the same mean. */
  lemma {:induction false} CancelCount(s: real, sm: real, n: nat, r: nat)
    requires n > 0 && r > 0 && r as real * sm == s
    ensures s / (n * r) as real == sm / n as real
  {
    RealOfProduct(n, r);
    CancelFactor(s, n as real, r as real, sm);
  }

  /** The effect of a column of ones is the mean of the means. */
  lemma {:induction false} EffectOfOnes(col: seq<int>, m: seq<real>)
    requires |col| == |m| > 0 && forall i :: 0 <= i < |m| ==> col[i] == 1
    ensures Effect(col, m) == Sum(m) / |m| as real
  {
    DotOnes(ToReal(col), m);
  }

  /** The effect of the column I is the grand mean of all observations. */
  lemma {:induction false} GrandMeanIsEffectOfI(y: seq<seq<real>>, cols: seq<seq<int>>, r: nat)
    requires r > 0 && |y| > 0 && Rectangular(y, |y|, r)
    requires |cols| > 0 && Shaped(cols, |y|) && forall i :: 0 <= i < |y| ==> cols[0][i] == 1
    ensures |Flatten(y)| > 0
    ensures GrandMean(y) == EffectsOf(cols, Means(y))[0]
  {
    var n, m := |y|, Means(y);
    FlattenLength(y, n, r);
    SumMeans(y, r);
    EffectOfOnes(cols[0], m);
    CancelCount(Sum(Flatten(y)), Sum(m), n, r);
  }

  // ----- sums of squares row by row -----

  /** The squared deviations of every row from its own reference value a[i]. */
  function RowDevs(y: seq<seq<real>>, a: seq<real>): (d: seq<real>)
    requires |a| == |y|
    ensures |d| == |y|
  {
    seq(|y|, i requires 0 <= i < |y| => SumSqDev(y[i], a[i]))
  }

  lemma {:induction false} FlattenSqDev(y: seq<seq<real>>, a: real)
    ensures SumSqDev(Flatten(y), a) == Sum(RowDevs(y, Const(|y|, a)))
  {
    if y != [] {
      var c := Const(|y|, a);
      var d, t := RowDevs(y, c), y[1..];
      assert c[1..] == Const(|t|, a);
      forall i | 0 <= i < |t| ensures d[1..][i] == RowDevs(t, c[1..])[i] {
        assert t[i] == y[i + 1];
      }
      assert d[1..] == RowDevs(t, c[1..]);
      FlattenSqDev(t, a);
      SumSqDevAppend(y[0], Flatten(t), a);
    }
  }

  lemma {:induction false} ErrorSSRows(y: seq<seq<real>>, f: seq<real>)
    requires |f| == |y|
    ensures ErrorSS(Residuals(y, f)) == Sum(RowDevs(y, f))
  {
    if y != [] {
      var res, d, t := Residuals(y, f), RowDevs(y, f), y[1..];
      assert res[1..] == Residuals(t, f[1..]);
      forall i | 0 <= i < |t| ensures d[1..][i] == RowDevs(t, f[1..])[i] {
        assert t[i] == y[i + 1];
      }
      assert d[1..] == RowDevs(t, f[1..]);
      ErrorSSRows(t, f[1..]);
      SumSqAppend(res[0], Flatten(res[1..]));
      SumSqShift(y[0], f[0], res[0]);
    }
  }

  /** One row's squared deviations split around the row mean mu. */
  lemma {:induction false} HeadSplit(row: seq<real>, rr: real, mu: real, a: real, g: real)
    requires |row| > 0 && |row| as real == rr && Sum(row) == rr * mu && g == (mu - a) * (mu - a)
    ensures Offset(SumSqDev(row, a), SumSqDev(row, mu), rr, g)
  {
    assert mu * |row| as real == Sum(row);
    SumSqDevSplit(row, a, mu);
    assert |row| as real * ((mu - a) * (mu - a)) == rr * g;
  }

  lemma {:induction false} RowSplitAt(y: seq<seq<real>>, r: nat, m: seq<real>, a: seq<real>, i: nat)
    requires r > 0 && Rectangular(y, |y|, r) && MeansOf(y, r, m) && |a| == |y| && i < |y|
    ensures RowDevs(y, a)[i] == RowDevs(y, m)[i] + r as real * Gaps(m, a)[i]
  {
    assert Totals(y)[i] == r as real * m[i];
    HeadSplit(y[i], r as real, m[i], a[i], Gaps(m, a)[i]);
    assert Offset(RowDevs(y, a)[i], RowDevs(y, m)[i], r as real, Gaps(m, a)[i]);
  }

  lemma {:induction false} PointSplit(y: seq<seq<real>>, r: nat, m: seq<real>, a: seq<real>)
    requires r > 0 && Rectangular(y, |y|, r) && MeansOf(y, r, m) && |a| == |y|
    ensures Affine(RowDevs(y, a), RowDevs(y, m), r as real, Gaps(m, a))
  {
    forall i | 0 <= i < |y| ensures RowDevs(y, a)[i] == RowDevs(y, m)[i] + r as real * Gaps(m, a)[i] {
      RowSplitAt(y, r, m, a, i);
    }
  }

  lemma {:induction false} RowsSplitSum(y: seq<seq<real>>, r: nat, m: seq<real>, a: seq<real>)
    requires r > 0 && Rectangular(y, |y|, r) && MeansOf(y, r, m) && |a| == |y|
    ensures Sum(RowDevs(y, a)) == Sum(RowDevs(y, m)) + r as real * Sum(Gaps(m, a))
  {
    var u, v, w := RowDevs(y, a), RowDevs(y, m), Gaps(m, a);
    assert Affine(u, v, r as real, w) by {
      PointSplit(y, r, m, a);
    }
    SumCombine(u, v, r as real, w);
  }

  /** Within every row, the squared deviations from any reference value split
      into those from the row mean and r times the squared distance between
      the row mean and the reference. */
  lemma {:induction false} RowsSplit(y: seq<seq<real>>, r: nat, m: seq<real>, a: seq<real>)
    requires r > 0 && Rectangular(y, |y|, r) && MeansOf(y, r, m) && |a| == |y|
    ensures Sum(RowDevs(y, a)) == Sum(RowDevs(y, m)) + r as real * SqDist(m, a)
  {
    RowsSplitSum(y, r, m, a);
    SqDistGaps(m, a);
  }

  // ----- the fitted values against the means -----

  /** The sum of the squares of the first c effects. */
  function SqSum(e: seq<real>, c: nat): real
    requires c <= |e|
  {
    if c == 0 then 0.0 else SqSum(e, c - 1) + e[c - 1] * e[c - 1]
  }

  /** Each of the first c columns has dot product |u| times its effect with u. */
  predicate DotsAreEffects(u: seq<real>, e: seq<real>, cols: seq<seq<int>>, c: nat)
    requires |e| == |cols| && c <= |cols| && Shaped(cols, |u|)
  {
    forall d {:trigger Dot(ToReal(cols[d]), u)} :: 0 <= d < c ==> Dot(ToReal(cols[d]), u) == |u| as real * e[d]
  }

  lemma {:induction false} WeightStep(w: real, w1: real, x: real, dx: real, n: real, q: real, q1: real)
    requires w == w1 + x * dx && w1 == n * q1 && dx == n * x && q == q1 + x * x
    ensures w == n * q
  {
  }

  lemma {:induction false} WeightedDotsEffects(u: seq<real>, e: seq<real>, cols: seq<seq<int>>, c: nat)
    requires |e| == |cols| && c <= |cols| && Shaped(cols, |u|) && DotsAreEffects(u, e, cols, c)
    ensures WeightedDots(u, e, cols, c) == |u| as real * SqSum(e, c)
  {
    if c > 0 {
      WeightedDotsEffects(u, e, cols, c - 1);
      var x, dx := e[c - 1], Dot(ToReal(cols[c - 1]), u);
      WeightStep(WeightedDots(u, e, cols, c), WeightedDots(u, e, cols, c - 1), x, dx, |u| as real,
                 SqSum(e, c), SqSum(e, c - 1));
    }
  }

  lemma {:induction false} CancelRuns(contrast: real, n: real, q: real)
    requires n > 0.0 && q == contrast / n
    ensures contrast == n * q
  {
  }

  /** The columns' dot products with the means are the runs times the effects. */
  lemma {:induction false} MeanDots(m: seq<real>, cols: seq<seq<int>>, c: nat)
    requires |m| > 0 && Shaped(cols, |m|) && c <= |cols|
    ensures DotsAreEffects(m, EffectsOf(cols, m), cols, c)
  {
    var e := EffectsOf(cols, m);
    forall d | 0 <= d < c ensures Dot(ToReal(cols[d]), m) == |m| as real * e[d] {
      CancelRuns(Contrast(cols[d], m), |m| as real, e[d]);
    }
  }

  /** In an orthogonal table the columns' dot products with a fit from the
      first c columns are the runs times the effects. */
  lemma {:induction false} FitDots(e: seq<real>, cols: seq<seq<int>>, n: nat, c: nat)
    requires SignTable.Orthogonal(cols, n) && |e| == |cols| && c <= |cols|
    ensures DotsAreEffects(Combo(e, cols, n, c), e, cols, c)
  {
    forall d | 0 <= d < c ensures Dot(ToReal(cols[d]), Combo(e, cols, n, c)) == |Combo(e, cols, n, c)| as real * e[d] {
      FitDotAt(e, cols, n, c, d);
    }
  }

  lemma {:induction false} MeanAgainstFit(m: seq<real>, cols: seq<seq<int>>, c: nat)
    requires |m| > 0 && Shaped(cols, |m|) && c <= |cols|
    ensures Dot(m, Combo(EffectsOf(cols, m), cols, |m|, c)) == |m| as real * SqSum(EffectsOf(cols, m), c)
  {
    var e := EffectsOf(cols, m);
    DotSymmetric(m, Combo(e, cols, |m|, c));
    ComboDot(m, e, cols, c);
    MeanDots(m, cols, c);
    WeightedDotsEffects(m, e, cols, c);
  }

  lemma {:induction false} FitAgainstFit(e: seq<real>, cols: seq<seq<int>>, n: nat, c: nat)
    requires SignTable.Orthogonal(cols, n) && |e| == |cols| && c <= |cols|
    ensures Dot(Combo(e, cols, n, c), Combo(e, cols, n, c)) == n as real * SqSum(e, c)
  {
    var f := Combo(e, cols, n, c);
    FitDots(e, cols, n, c);
    ComboDot(f, e, cols, c);
    WeightedDotsEffects(f, e, cols, c);
  }

  lemma {:induction false} DistanceStep(sd: real, mm: real, mf: real, ff: real, n: real, q: real)
    requires sd == mm - 2.0 * mf + ff && mf == n * q && ff == n * q
    ensures sd == mm - n * q
  {
  }

  /** A vector f whose dot products with m and with itself are both n q
      lies at squared distance m.m - n q from m. */
  lemma {:induction false} DistanceFromDots(m: seq<real>, f: seq<real>, n: real, q: real)
    requires |m| == |f| && Dot(m, f) == n * q && Dot(f, f) == n * q
    ensures SqDist(m, f) == Dot(m, m) - n * q
  {
    SqDistExpand(m, f);
    DistanceStep(SqDist(m, f), Dot(m, m), Dot(m, f), Dot(f, f), n, q);
  }

  /** For the effects estimated from m, the squared distance between m and
      the fit from the first c columns of an orthogonal table is m.m minus
      n times the sum of the first c squared effects. */
  lemma {:induction false} FitDistance(m: seq<real>, cols: seq<seq<int>>, c: nat)
    requires |m| > 0 && SignTable.Orthogonal(cols, |m|) && c <= |cols|
    ensures SqDist(m, Combo(EffectsOf(cols, m), cols, |m|, c))
         == Dot(m, m) - |m| as real * SqSum(EffectsOf(cols, m), c)
  {
    var e := EffectsOf(cols, m);
    MeanAgainstFit(m, cols, c);
    FitAgainstFit(e, cols, |m|, c);
    DistanceFromDots(m, Combo(e, cols, |m|, c), |m| as real, SqSum(e, c));
  }

  /** With the column I first, the fit from I alone is the constant e[0]. */
  lemma {:induction false} FirstCombo(e: seq<real>, cols: seq<seq<int>>, n: nat)
    requires |e| == |cols| > 0 && Shaped(cols, n) && forall i :: 0 <= i < n ==> cols[0][i] == 1
    ensures Combo(e, cols, n, 1) == Const(n, e[0])
  {
    forall i | 0 <= i < n ensures Combo(e, cols, n, 1)[i] == Const(n, e[0])[i] {
      assert FitAt(e, cols, n, i, 1) == FitAt(e, cols, n, i, 0) + e[0] * cols[0][i] as real;
    }
  }

  // ----- the decomposition -----

  /** The row-by-row split around the row means themselves. */
  lemma {:induction false} SplitAroundMeans(y: seq<seq<real>>, r: nat, a: seq<real>, m: seq<real>)
    requires r > 0 && Rectangular(y, |y|, r) && |a| == |y| && m == Means(y)
    ensures Offset(Sum(RowDevs(y, a)), Sum(RowDevs(y, m)), r as real, SqDist(m, a))
  {
    MeansAreMeans(y, r);
    RowsSplit(y, r, m, a);
  }

  /** t is w plus r times d. */
  predicate Offset(t: real, w: real, r: real, d: real)
  {
    t == w + r * d
  }

  /** d is what is left of mm once n q is taken away. */
  predicate Remains(d: real, mm: real, n: real, q: real)
  {
    d == mm - n * q
  }

  lemma {:induction false} DistanceRemains(m: seq<real>, cols: seq<seq<int>>, c: nat)
    requires |m| > 0 && SignTable.Orthogonal(cols, |m|) && c <= |cols|
    ensures Remains(SqDist(m, Combo(EffectsOf(cols, m), cols, |m|, c)), Dot(m, m), |m| as real,
                    SqSum(EffectsOf(cols, m), c))
  {
    FitDistance(m, cols, c);
  }

  /** t is w plus r times what is left of mm once n q is taken away. */
  predicate Splits(t: real, w: real, r: real, mm: real, n: real, q: real)
  {
    t == w + r * (mm - n * q)
  }

  lemma {:induction false} SplitClose(ss: real, rows: real, within: real, r: real, dist: real,
                                      mm: real, n: real, q: real)
    requires ss == rows && Offset(rows, within, r, dist) && Remains(dist, mm, n, q)
    ensures Splits(ss, within, r, mm, n, q)
  {
  }

  /** SST is the within-run part plus r times the part of the means
      around the grand mean:
        TotalSS(y) == Sum(RowDevs(y, m)) + r * (Dot(m, m) - n * SqSum(e, 1))
      with n = |y| and SqSum(e, 1) = e[0] * e[0], the squared grand mean. */
  lemma {:induction false} TotalSplit(y: seq<seq<real>>, cols: seq<seq<int>>, r: nat,
                                          m: seq<real>, e: seq<real>)
    requires r > 0 && |y| > 0 && Rectangular(y, |y|, r)
    requires SignTable.Orthogonal(cols, |y|) && |cols| > 0 && forall i :: 0 <= i < |y| ==> cols[0][i] == 1
    requires m == Means(y) && e == EffectsOf(cols, m)
    ensures |Flatten(y)| > 0
    ensures Splits(TotalSS(y), Sum(RowDevs(y, m)), r as real, Dot(m, m), |y| as real, SqSum(e, 1))
  {
    var n := |y|;
    GrandMeanIsEffectOfI(y, cols, r);
    FirstCombo(e, cols, n);
    var a := Combo(e, cols, n, 1);
    FlattenSqDev(y, e[0]);
    SplitAroundMeans(y, r, a, m);
    DistanceRemains(m, cols, 1);
    SplitClose(TotalSS(y), Sum(RowDevs(y, a)), Sum(RowDevs(y, m)), r as real, SqDist(m, a),
               Dot(m, m), n as real, SqSum(e, 1));
  }

  /** SSE is the within-run part plus r times the part of the means the
      fit leaves unexplained:
        ErrorSS(Residuals(y, Fitted(e, cols, n)))
          == Sum(RowDevs(y, m)) + r * (Dot(m, m) - n * SqSum(e, |cols|))
      with n = |y|. */
  lemma {:induction false} ErrorSplit(y: seq<seq<real>>, cols: seq<seq<int>>, r: nat,
                                          m: seq<real>, e: seq<real>)
    requires r > 0 && |y| > 0 && Rectangular(y, |y|, r) && SignTable.Orthogonal(cols, |y|)
    requires m == Means(y) && e == EffectsOf(cols, m)
    ensures Splits(ErrorSS(Residuals(y, Fitted(e, cols, |y|))), Sum(RowDevs(y, m)), r as real, Dot(m, m),
                   |y| as real, SqSum(e, |cols|))
  {
    var n := |y|;
    var f := Fitted(e, cols, n);
    assert f == Combo(e, cols, n, |cols|);
    ErrorSSRows(y, f);
    SplitAroundMeans(y, r, f, m);
    DistanceRemains(m, cols, |cols|);
    SplitClose(ErrorSS(Residuals(y, f)), Sum(RowDevs(y, f)), Sum(RowDevs(y, m)), r as real, SqDist(m, f),
               Dot(m, m), n as real, SqSum(e, |cols|));
  }

  lemma {:induction false} EffectSSPrefix(e: seq<real>, r: nat, n: nat, c: nat)
    requires 1 <= c <= |e|
    ensures Sum(EffectSS(e, r, n)[..c]) == r as real * n as real * (SqSum(e, c) - e[0] * e[0])
  {
    var ss := EffectSS(e, r, n);
    if c == 1 {
      assert ss[..1] == [0.0];
    } else {
      EffectSSPrefix(e, r, n, c - 1);
      assert ss[..c] == ss[..c - 1] + [ss[c - 1]];
      SumAppend(ss[..c - 1], [ss[c - 1]]);
      var x := e[c - 1];
      assert ss[c - 1] == r as real * n as real * (x * x);
    }
  }

  /** The effect sums of squares add up to r n times the squared effects of
      every column but I. */
  lemma {:induction false} SumEffectSS(e: seq<real>, r: nat, n: nat)
    requires |e| > 0
    ensures Sum(EffectSS(e, r, n)) == r as real * n as real * (SqSum(e, |e|) - e[0] * e[0])
  {
    var c := |e|;
    EffectSSPrefix(e, r, n, c);
    assert SqSum(e, c) == SqSum(e, |e|);
    assert EffectSS(e, r, n)[..c] == EffectSS(e, r, n);
  }

  /** s is r n times what hi gains over lo. */
  predicate Explained(s: real, r: real, n: real, hi: real, lo: real)
  {
    s == r * n * (hi - lo)
  }

  lemma {:induction false} ExplainedSS(e: seq<real>, r: nat, n: nat)
    requires |e| > 0
    ensures Explained(Sum(EffectSS(e, r, n)), r as real, n as real, SqSum(e, |e|), SqSum(e, 1))
  {
    SumEffectSS(e, r, n);
    assert SqSum(e, 1) == e[0] * e[0];
  }

  lemma {:induction false} DecompositionStep(sst: real, sse: real, within: real, r: real, n: real,
                                             mm: real, q1: real, qall: real, ssum: real)
    requires Splits(sst, within, r, mm, n, q1) && Splits(sse, within, r, mm, n, qall)
    requires Explained(ssum, r, n, qall, q1)
    ensures sst == ssum + sse
  {
  }

  /** The allocation of variation: for an orthogonal table whose first column
      is the column I, SST is the sum of the effect sums of squares plus SSE,
      where m are the row means and e the effects estimated from them.
      Interactions absent from the table leave their share in SSE. */
  lemma {:induction false} Decomposition(y: seq<seq<real>>, cols: seq<seq<int>>, r: nat, m: seq<real>, e: seq<real>)
    requires r > 0 && |y| > 0 && Rectangular(y, |y|, r)
    requires SignTable.Orthogonal(cols, |y|) && |cols| > 0 && forall i :: 0 <= i < |y| ==> cols[0][i] == 1
    requires m == Means(y) && e == EffectsOf(cols, m)
    ensures |Flatten(y)| > 0
    ensures TotalSS(y) == Sum(EffectSS(e, r, |y|)) + ErrorSS(Residuals(y, Fitted(e, cols, |y|)))
  {
    var n := |y|;
    TotalSplit(y, cols, r, m, e);
    ErrorSplit(y, cols, r, m, e);
    ExplainedSS(e, r, n);
    DecompositionStep(TotalSS(y), ErrorSS(Residuals(y, Fitted(e, cols, n))), Sum(RowDevs(y, m)), r as real,
                      n as real, Dot(m, m), SqSum(e, 1), SqSum(e, |e|), Sum(EffectSS(e, r, n)));
  }

  // ----- the shares -----

  lemma {:induction false} EffectSSNonNegative(e: seq<real>, r: nat, n: nat)
    ensures forall c :: 0 <= c < |e| ==> EffectSS(e, r, n)[c] >= 0.0
    ensures |e| > 0 ==> EffectSS(e, r, n)[0] == 0.0
  {
    forall c | 0 <= c < |e| ensures EffectSS(e, r, n)[c] >= 0.0 {
      SquareNonNegative(e[c]);
      var sq := e[c] * e[c];
      assert sq * r as real >= 0.0;
      assert sq * r as real * n as real >= 0.0;
    }
  }

  lemma {:induction false} ShareArithmetic(s: real, sse: real, sst: real, scaled: real, x: real)
    requires sst != 0.0 && sst == s + sse && scaled == (100.0 / sst) * s && x == 100.0 * sse / sst
    ensures scaled + x == 100.0
  {
    assert (100.0 / sst) * s + 100.0 * sse / sst == 100.0 * (s + sse) / sst;
  }

  lemma {:induction false} QuotientAsScale(x: real, sst: real, q: real)
    requires sst != 0.0 && q == 100.0 * x / sst
    ensures q == (100.0 / sst) * x
  {
  }

  /** Shares of the effect sums of squares add up to the share of their sum. */
  lemma {:induction false} ScaledShares(ss: seq<real>, sst: real, a: seq<real>)
    requires sst != 0.0 && |a| == |ss|
    requires forall c :: 0 <= c < |ss| ==> a[c] == 100.0 * ss[c] / sst
    ensures Sum(a) == (100.0 / sst) * Sum(ss)
  {
    forall c | 0 <= c < |ss| ensures a[c] == (100.0 / sst) * ss[c] {
      QuotientAsScale(ss[c], sst, a[c]);
    }
    SumScale(ss, 100.0 / sst, a);
  }

  /** When SST splits into the effect sums of squares and SSE the shares add
      up to 100 percent. */
  lemma {:induction false} PercentagesSum(ss: seq<real>, sse: real, sst: real)
    requires sst != 0.0 && sst == Sum(ss) + sse
    ensures Percentages(ss, sse, sst).Some?
    ensures Sum(Percentages(ss, sse, sst).value) == 100.0
  {
    var p := Percentages(ss, sse, sst).value;
    var a, x := p[..|ss|], 100.0 * sse / sst;
    assert p == a + [x];
    ScaledShares(ss, sst, a);
    SumSnoc(a, x);
    ShareArithmetic(Sum(ss), sse, sst, Sum(a), x);
  }

  lemma {:induction false} ShareBetween(x: real, sst: real)
    requires 0.0 <= x <= sst && sst > 0.0
    ensures 0.0 <= 100.0 * x / sst <= 100.0
  {
    var q := 100.0 * x / sst;
    assert q * sst == 100.0 * x;
    assert (100.0 - q) * sst == 100.0 * (sst - x);
  }

  /** With no negative sum of squares and SST = sum of SS + SSE, the shares
      are defined exactly when SST is not zero and each lies between 0 and 100. */
  lemma {:induction false} PercentagesBetween(ss: seq<real>, sse: real, sst: real)
    requires forall c :: 0 <= c < |ss| ==> ss[c] >= 0.0
    requires sse >= 0.0 && sst == Sum(ss) + sse
    ensures Percentages(ss, sse, sst).None? <==> sst == 0.0
    ensures Percentages(ss, sse, sst).Some? ==>
      forall c :: 0 <= c < |ss| + 1 ==> 0.0 <= Percentages(ss, sse, sst).value[c] <= 100.0
  {
    if sst != 0.0 {
      var p := Percentages(ss, sse, sst).value;
      SumNonNegative(ss);
      forall c | 0 <= c < |ss| + 1 ensures 0.0 <= p[c] <= 100.0 {
        if c < |ss| {
          EntryAtMostSum(ss, c);
          ShareBetween(ss[c], sst);
        } else {
          ShareBetween(sse, sst);
        }
      }
    }
  }
}
