/** Effect estimation on a sign table: row means of the replicates, the
    contrast and effect of every column, the weighted-sum and weighted-mean
    rows, the fitted value of every run and the residuals. The table is any
    list of columns of integer signs over n runs; the properties that need
    it are proved for orthogonal tables, which the generated table is. */
module Effects {
  import opened RealSums
  import SignTable

  /** The mean of one run's replicate responses. */
  function RowMean(row: seq<real>): (mu: real)
    requires |row| > 0
    ensures mu * |row| as real == Sum(row)
  {
    Sum(row) / |row| as real
  }

  /** Every row of y holds at least one value. */
  predicate NonEmptyRows(y: seq<seq<real>>)
  {
    forall i :: 0 <= i < |y| ==> |y[i]| > 0
  }

  /** The mean response of every run. */
  function Means(y: seq<seq<real>>): (m: seq<real>)
    requires NonEmptyRows(y)
    ensures |m| == |y|
  {
    seq(|y|, i requires 0 <= i < |y| => RowMean(y[i]))
  }

  /** A row mean lies between the smallest and the largest replicate, and
      the mean times the replicate count gives back the row's total. */
  lemma {:induction false} RowMeanBetween(row: seq<real>, lo: real, hi: real)
    requires |row| > 0 && forall j :: 0 <= j < |row| ==> lo <= row[j] <= hi
    ensures lo <= RowMean(row) <= hi
  {
    SumBetween(row, lo, hi);
    QuotientBetween(Sum(row), |row| as real, lo, hi);
  }

  lemma {:induction false} QuotientBetween(s: real, n: real, lo: real, hi: real)
    requires n > 0.0 && n * lo <= s <= n * hi
    ensures lo <= s / n <= hi && s / n * n == s
  {
    var q := s / n;
    assert q * n == s;
    assert (q - lo) * n >= 0.0 && (hi - q) * n >= 0.0;
  }

  function ToReal(v: seq<int>): (w: seq<real>)
    ensures |w| == |v|
  {
    seq(|v|, i requires 0 <= i < |v| => v[i] as real)
  }

  /** Every column has one sign per run, n runs. */
  predicate Shaped(cols: seq<seq<int>>, n: nat)
  {
    forall c :: 0 <= c < |cols| ==> |cols[c]| == n
  }

  /** The contrast of a column: the sum over the runs of sign times mean response. */
  function Contrast(col: seq<int>, m: seq<real>): real
    requires |col| == |m|
  {
    Dot(ToReal(col), m)
  }

  /** The effect of a column: its contrast divided by the number of runs. */
  function Effect(col: seq<int>, m: seq<real>): real
    requires |col| == |m| > 0
  {
    Contrast(col, m) / |m| as real
  }

  /** The effect of every column of the table, in column order. */
  function EffectsOf(cols: seq<seq<int>>, m: seq<real>): (e: seq<real>)
    requires |m| > 0 && Shaped(cols, |m|)
    ensures |e| == |cols|
  {
    seq(|cols|, c requires 0 <= c < |cols| => Effect(cols[c], m))
  }

  /** Fills the effects column by column, as the program's effects loop does. */
  method EstimateEffects(cols: seq<seq<int>>, m: seq<real>) returns (e: seq<real>)
    requires |m| > 0 && Shaped(cols, |m|)
    ensures e == EffectsOf(cols, m)
    ensures forall c :: 0 <= c < |cols| ==> e[c] * |m| as real == Contrast(cols[c], m)
  {
    e := [];
    for c := 0 to |cols|
      invariant e == EffectsOf(cols, m)[..c]
    {
      e := e + [Contrast(cols[c], m) / |m| as real];
    }
  }

  /** The contrast of every column of the table, in column order. */
  function ContrastsOf(cols: seq<seq<int>>, m: seq<real>): (s: seq<real>)
    requires Shaped(cols, |m|)
    ensures |s| == |cols|
  {
    seq(|cols|, c requires 0 <= c < |cols| => Contrast(cols[c], m))
  }

  /** Every contrast is the number of runs times the column's effect. */
  lemma {:induction false} ContrastsScaleEffects(cols: seq<seq<int>>, m: seq<real>)
    requires |m| > 0 && Shaped(cols, |m|)
    ensures Scaled(ContrastsOf(cols, m), |m| as real, EffectsOf(cols, m))
  {
    forall c | 0 <= c < |cols| ensures ContrastsOf(cols, m)[c] == |m| as real * EffectsOf(cols, m)[c] {
      var s, n := Contrast(cols[c], m), |m| as real;
      assert n * (s / n) == s;
    }
  }

  /** The weighted-sum row (the contrast of every column) and the
      weighted-mean row (the contrast over the number of runs). The
      weighted sum is the number of runs times the effect, and the weighted
      mean is the effect itself. */
  method WeightedRows(cols: seq<seq<int>>, m: seq<real>) returns (sums: seq<real>, means: seq<real>)
    requires |m| > 0 && Shaped(cols, |m|)
    ensures sums == ContrastsOf(cols, m)
    ensures forall c :: 0 <= c < |cols| ==> sums[c] == |m| as real * EffectsOf(cols, m)[c]
    ensures means == EffectsOf(cols, m)
  {
    sums, means := [], [];
    var n := |m| as real;
    for c := 0 to |cols|
      invariant sums == ContrastsOf(cols, m)[..c]
      invariant forall d :: 0 <= d < c ==> sums[d] == n * EffectsOf(cols, m)[d]
      invariant means == EffectsOf(cols, m)[..c]
    {
      var s := Contrast(cols[c], m);
      assert n * (s / n) == s;
      sums := sums + [s];
      means := means + [s / n];
    }
  }

  /** The fitted value of run i from the first c columns: the sum of their
      effects times their signs in run i. */
  function FitAt(e: seq<real>, cols: seq<seq<int>>, n: nat, i: nat, c: nat): real
    requires |e| == |cols| && c <= |cols| && Shaped(cols, n) && i < n
  {
    if c == 0 then 0.0 else FitAt(e, cols, n, i, c - 1) + e[c - 1] * cols[c - 1][i] as real
  }

  /** The vector of fitted values over the n runs from the first c columns. */
  function Combo(e: seq<real>, cols: seq<seq<int>>, n: nat, c: nat): (f: seq<real>)
    requires |e| == |cols| && c <= |cols| && Shaped(cols, n)
    ensures |f| == n
  {
    seq(n, i requires 0 <= i < n => FitAt(e, cols, n, i, c))
  }

  /** The fitted value of every run from all the columns. */
  function Fitted(e: seq<real>, cols: seq<seq<int>>, n: nat): (f: seq<real>)
    requires |e| == |cols| && Shaped(cols, n)
    ensures |f| == n
  {
    Combo(e, cols, n, |cols|)
  }

  /** Computes the fitted values into a preallocated array, one run at a time,
      accumulating effect times sign over the columns. */
  method FittedValues(e: seq<real>, cols: seq<seq<int>>, n: nat) returns (estimate: array<real>)
    requires |e| == |cols| && Shaped(cols, n)
    ensures fresh(estimate)
    ensures estimate.Length == n && estimate[..] == Fitted(e, cols, n)
  {
    estimate := new real[n](_ => 0.0);
    for i := 0 to n
      invariant forall j :: 0 <= j < i ==> estimate[j] == FitAt(e, cols, n, j, |cols|)
    {
      var sum := 0.0;
      for c := 0 to |cols|
        invariant sum == FitAt(e, cols, n, i, c)
      {
        sum := sum + e[c] * cols[c][i] as real;
      }
      estimate[i] := sum;
    }
  }

  /** The residual of every replicate: the response minus its run's fitted value. */
  function Residuals(y: seq<seq<real>>, f: seq<real>): (res: seq<seq<real>>)
    requires |f| == |y|
    ensures |res| == |y| && forall i :: 0 <= i < |y| ==> |res[i]| == |y[i]|
  {
    seq(|y|, i requires 0 <= i < |y| => seq(|y[i]|, j requires 0 <= j < |y[i]| => y[i][j] - f[i]))
  }

  // ----- properties -----

  lemma {:induction false} DotToReal(u: seq<int>, v: seq<int>)
    requires |u| == |v|
    ensures Dot(ToReal(u), ToReal(v)) == SignTable.IntDot(u, v) as real
  {
    if u != [] {
      assert ToReal(u)[1..] == ToReal(u[1..]) && ToReal(v)[1..] == ToReal(v[1..]);
      DotToReal(u[1..], v[1..]);
    }
  }

  /** Adding column c moves every fitted value by effect times sign. */
  lemma {:induction false} ComboStep(e: seq<real>, cols: seq<seq<int>>, n: nat, c: nat)
    requires |e| == |cols| && c < |cols| && Shaped(cols, n)
    ensures forall i :: 0 <= i < n ==>
      Combo(e, cols, n, c + 1)[i] == Combo(e, cols, n, c)[i] + e[c] * ToReal(cols[c])[i]
  {
  }

  /** Dot products against the fitted values from the first c columns. */
  function WeightedDots(u: seq<real>, e: seq<real>, cols: seq<seq<int>>, c: nat): real
    requires |e| == |cols| && c <= |cols| && Shaped(cols, |u|)
  {
    if c == 0 then 0.0 else WeightedDots(u, e, cols, c - 1) + e[c - 1] * Dot(ToReal(cols[c - 1]), u)
  }

  /** The fitted values are a combination of the columns, so their dot product
      with any vector is the effect-weighted sum of the columns' dot products. */
  lemma {:induction false} ComboDot(u: seq<real>, e: seq<real>, cols: seq<seq<int>>, c: nat)
    requires |e| == |cols| && c <= |cols| && Shaped(cols, |u|)
    ensures Dot(Combo(e, cols, |u|, c), u) == WeightedDots(u, e, cols, c)
  {
    var n := |u|;
    if c == 0 {
      DotZero(Combo(e, cols, n, 0), u);
    } else {
      ComboDot(u, e, cols, c - 1);
      ComboStep(e, cols, n, c - 1);
      DotAddScaled(Combo(e, cols, n, c), Combo(e, cols, n, c - 1), e[c - 1], ToReal(cols[c - 1]), u);
    }
  }

  lemma {:induction false} DotZero(z: seq<real>, u: seq<real>)
    requires |z| == |u| && forall i :: 0 <= i < |z| ==> z[i] == 0.0
    ensures Dot(z, u) == 0.0
  {
    if z != [] {
      DotZero(z[1..], u[1..]);
    }
  }

  /** In an orthogonal table the effect-weighted dot products of column d with
      the first c columns give n times its effect when it is among them, and
      zero otherwise. */
  lemma {:induction false} WeightedDotsOrthogonal(e: seq<real>, cols: seq<seq<int>>, n: nat, c: nat, d: nat)
    requires SignTable.Orthogonal(cols, n) && |e| == |cols| && c <= |cols| && d < |cols|
    ensures WeightedDots(ToReal(cols[d]), e, cols, c) == if d < c then n as real * e[d] else 0.0
  {
    if c > 0 {
      WeightedDotsOrthogonal(e, cols, n, c - 1, d);
      DotToReal(cols[c - 1], cols[d]);
      assert SignTable.IntDot(cols[c - 1], cols[d]) == if c - 1 == d then n else 0;
    }
  }

  /** In an orthogonal table a column's dot product with the fitted values
      from the first c columns is n times its effect when it is among them,
      and zero otherwise. */
  lemma {:induction false} ColumnAgainstCombo(e: seq<real>, cols: seq<seq<int>>, n: nat, c: nat, d: nat)
    requires SignTable.Orthogonal(cols, n) && |e| == |cols| && c <= |cols| && d < |cols|
    ensures Dot(Combo(e, cols, n, c), ToReal(cols[d])) == if d < c then n as real * e[d] else 0.0
  {
    ComboDot(ToReal(cols[d]), e, cols, c);
    WeightedDotsOrthogonal(e, cols, n, c, d);
  }

  /** The same with the column on the left, column d among the first c. */
  lemma {:induction false} FitDotAt(e: seq<real>, cols: seq<seq<int>>, n: nat, c: nat, d: nat)
    requires SignTable.Orthogonal(cols, n) && |e| == |cols| && c <= |cols| && d < c
    ensures Dot(ToReal(cols[d]), Combo(e, cols, n, c)) == |Combo(e, cols, n, c)| as real * e[d]
  {
    var f := Combo(e, cols, n, c);
    ColumnAgainstCombo(e, cols, n, c, d);
    assert Dot(f, ToReal(cols[d])) == n as real * e[d];
    DotSymmetric(f, ToReal(cols[d]));
  }

  lemma {:induction false} DivideBack(x: real, n: real, q: real)
    requires n > 0.0 && x == n * q
    ensures x / n == q
  {
  }

  /** Refitting round trip: in an orthogonal table the effects estimated from
      the fitted values are the effects the fit was built from. */
  lemma {:induction false} FittedEffects(e: seq<real>, cols: seq<seq<int>>, n: nat)
    requires SignTable.Orthogonal(cols, n) && n > 0 && |e| == |cols|
    ensures EffectsOf(cols, Fitted(e, cols, n)) == e
  {
    var f := Fitted(e, cols, n);
    forall d | 0 <= d < |cols| ensures Effect(cols[d], f) == e[d] {
      FitDotAt(e, cols, n, |cols|, d);
      DivideBack(Contrast(cols[d], f), n as real, e[d]);
    }
  }

  /** The other half of the refitting round trip: taking the fitted values
      as the responses of a single replicate per run, the analysis fits them
      exactly and every residual is zero. */
  lemma {:induction false} RefitResidualsZero(e: seq<real>, cols: seq<seq<int>>, n: nat)
    requires SignTable.Orthogonal(cols, n) && n > 0 && |e| == |cols|
    ensures var f := Fitted(e, cols, n);
            var y := seq(n, i requires 0 <= i < n => [f[i]]);
            NonEmptyRows(y) && Means(y) == f &&
            Residuals(y, Fitted(EffectsOf(cols, Means(y)), cols, n)) == seq(n, _ => [0.0])
  {
    var f := Fitted(e, cols, n);
    var y := seq(n, i requires 0 <= i < n => [f[i]]);
    forall i | 0 <= i < n ensures RowMean(y[i]) == f[i] {
      assert Sum(y[i]) == f[i] + Sum([]);
    }
    assert Means(y) == f;
    FittedEffects(e, cols, n);
    var res := Residuals(y, Fitted(EffectsOf(cols, f), cols, n));
    forall i | 0 <= i < n ensures res[i] == [0.0] {
      assert res[i][0] == y[i][0] - f[i];
    }
  }

  /** The residuals of a run average to its mean response minus its fitted value. */
  lemma {:induction false} ResidualMeans(y: seq<seq<real>>, f: seq<real>)
    requires |f| == |y| && NonEmptyRows(y)
    ensures NonEmptyRows(Residuals(y, f))
    ensures forall i :: 0 <= i < |y| ==> Means(Residuals(y, f))[i] == Means(y)[i] - f[i]
  {
    var res := Residuals(y, f);
    forall i | 0 <= i < |y| ensures RowMean(res[i]) == RowMean(y[i]) - f[i] {
      var n := |y[i]| as real;
      SumShift(y[i], f[i], res[i]);
      assert Sum(res[i]) / n == Sum(y[i]) / n - (n * f[i]) / n;
    }
  }

  /** A column whose effect is the same on m and on f has a zero contrast on m - f. */
  lemma {:induction false} ContrastOfDifference(col: seq<int>, m: seq<real>, f: seq<real>, d: seq<real>)
    requires |col| == |m| == |f| == |d| > 0
    requires forall i :: 0 <= i < |d| ==> d[i] == m[i] - f[i]
    requires Effect(col, m) == Effect(col, f)
    ensures Contrast(col, d) == 0.0
  {
    var u := ToReal(col);
    DotSymmetric(u, d);
    DotSymmetric(u, m);
    DotSymmetric(u, f);
    DotAddScaled(d, m, -1.0, f, u);
    var n := |m| as real;
    assert Contrast(col, m) == Effect(col, m) * n;
    assert Contrast(col, f) == Effect(col, f) * n;
  }

  /** The residual means carry no effect: in an orthogonal table, with the
      effects estimated from the mean responses, every column's contrast of
      the residual means is zero. */
  lemma {:induction false} ResidualsOrthogonal(y: seq<seq<real>>, cols: seq<seq<int>>)
    requires |y| > 0 && NonEmptyRows(y) && SignTable.Orthogonal(cols, |y|)
    ensures NonEmptyRows(Residuals(y, Fitted(EffectsOf(cols, Means(y)), cols, |y|)))
    ensures forall c :: 0 <= c < |cols| ==>
      Contrast(cols[c], Means(Residuals(y, Fitted(EffectsOf(cols, Means(y)), cols, |y|)))) == 0.0
  {
    var n, m := |y|, Means(y);
    var e := EffectsOf(cols, m);
    var f := Fitted(e, cols, n);
    ResidualMeans(y, f);
    FittedEffects(e, cols, n);
    forall c | 0 <= c < |cols| ensures Contrast(cols[c], Means(Residuals(y, f))) == 0.0 {
      assert EffectsOf(cols, f)[c] == EffectsOf(cols, m)[c];
      ContrastOfDifference(cols[c], m, f, Means(Residuals(y, f)));
    }
  }
}
