/** The whole analysis of a 2^k r factorial experiment: the parameter checks,
    the sign table, the responses, the effects, the fitted values and
    residuals, and the allocation of variation, with the properties that tie
    the reported numbers together. */
module Experiment {
  import opened Outcome
  import opened RealSums
  import opened Responses
  import opened Effects
  import opened Variance
  import SignTable

  /** Everything the program reports: the sign table, the responses and
      their means, the effects with the weighted-sum and weighted-mean rows,
      the fitted values and residuals, SST, the sum of squares of every
      column (0 for I), SSE and the percentages (None when SST is 0). */
  datatype Report = Report(
    terms: seq<SignTable.Term>,
    cols: seq<seq<int>>,
    y: seq<seq<real>>,
    means: seq<real>,
    effects: seq<real>,
    weightedSums: seq<real>,
    weightedMeans: seq<real>,
    fitted: seq<real>,
    residuals: seq<seq<real>>,
    sst: real,
    ss: seq<real>,
    sse: real,
    percentages: Option<seq<real>>)

  /** The report for k factors and the responses y of the 2^k runs, r each. */
  function Analysis(k: nat, r: nat, y: seq<seq<real>>): (a: Report)
    requires r > 0 && Rectangular(y, SignTable.Pow2(k), r)
    ensures a.cols == SignTable.Columns(k) && a.y == y
  {
    SignTable.TableOrthogonal(k);
    FlattenLength(y, |y|, r);
    var cols := SignTable.Columns(k);
    var n := |y|;
    var m := Means(y);
    var e := EffectsOf(cols, m);
    var f := Fitted(e, cols, n);
    var res := Residuals(y, f);
    var sst, ss, sse := TotalSS(y), EffectSS(e, r, n), ErrorSS(res);
    Report(SignTable.Terms(k), cols, y, m, e, ContrastsOf(cols, m), e,
           f, res, sst, ss, sse, Percentages(ss, sse, sst))
  }

  /** The analysis proper, step by step as the program computes it. */
  method Analyse(k: nat, r: nat, terms: seq<SignTable.Term>, cols: seq<seq<int>>, y: seq<seq<real>>)
    returns (a: Report)
    requires r > 0 && Rectangular(y, SignTable.Pow2(k), r)
    requires terms == SignTable.Terms(k) && cols == SignTable.Columns(k)
    ensures a == Analysis(k, r, y)
  {
    var n := SignTable.Pow2(k);
    SignTable.TableOrthogonal(k);
    FlattenLength(y, n, r);
    var m := Means(y);
    var e := EstimateEffects(cols, m);
    var sums, means := WeightedRows(cols, m);
    var estimate := FittedValues(e, cols, n);
    var f := estimate[..];
    var errors := Residuals(y, f);
    var sst, ss, sse := TotalSS(y), EffectSS(e, r, n), ErrorSS(errors);
    a := Report(terms, cols, y, m, e, sums, means, f, errors, sst, ss, sse, Percentages(ss, sse, sst));
  }

  /** Runs the program on k, r and the response lines: the checks on k and r
      come first, then the table is generated and one line is read per run. */
  method Run(k: int, r: int, lines: seq<seq<real>>) returns (res: Result<Report, Error>)
    ensures CheckParameters(k, r).Some? ==> res == Err(CheckParameters(k, r).value)
    ensures CheckParameters(k, r).None? ==> (res.Ok? <==> RowsFine(lines, r, SignTable.Pow2(k)))
    ensures CheckParameters(k, r).None? && res.Err? ==> Rejects(SignTable.Pow2(k), r, lines, res.error)
    ensures res.Ok? ==>
      2 <= k <= 5 && 1 <= r <= 3 && RowsFine(lines, r, SignTable.Pow2(k)) &&
      res.value == Analysis(k, r, lines[..SignTable.Pow2(k)])
  {
    var bad := CheckParameters(k, r);
    if bad.Some? {
      return Err(bad.value);
    }
    var terms, cols := SignTable.GenerateTable(k);
    var n := SignTable.Pow2(k);
    var collected := CollectResponses(n, r, lines);
    if collected.Err? {
      return Err(collected.error);
    }
    var y := collected.value;
    assert Rectangular(y, n, r);
    var a := Analyse(k, r, terms, cols, y);
    res := Ok(a);
  }

  // ----- what the report promises -----

  /** The allocation of variation adds up: SST is the sum of the column sums
      of squares plus SSE, for every k (the four- and five-factor
      interactions the table leaves out are part of SSE). */
  lemma {:induction false} AnalysisDecomposes(k: nat, r: nat, y: seq<seq<real>>)
    requires r > 0 && Rectangular(y, SignTable.Pow2(k), r)
    ensures Analysis(k, r, y).sst == Sum(Analysis(k, r, y).ss) + Analysis(k, r, y).sse
  {
    var cols := SignTable.Columns(k);
    SignTable.TableOrthogonal(k);
    SignTable.ColumnIOnes(k);
    Decomposition(y, cols, r, Means(y), EffectsOf(cols, Means(y)));
  }

  /** The effect of I is the mean of all r 2^k observations. */
  lemma {:induction false} AnalysisGrandMean(k: nat, r: nat, y: seq<seq<real>>)
    requires r > 0 && Rectangular(y, SignTable.Pow2(k), r)
    ensures |Flatten(y)| > 0 && |Analysis(k, r, y).effects| > 0
    ensures Analysis(k, r, y).effects[0] == GrandMean(y)
  {
    SignTable.TableOrthogonal(k);
    SignTable.ColumnIOnes(k);
    GrandMeanIsEffectOfI(y, SignTable.Columns(k), r);
  }

  /** The weighted-sum row is 2^k times the effects and the weighted-mean
      row is the effects themselves. */
  lemma {:induction false} AnalysisWeighted(k: nat, r: nat, y: seq<seq<real>>)
    requires r > 0 && Rectangular(y, SignTable.Pow2(k), r)
    ensures Analysis(k, r, y).weightedMeans == Analysis(k, r, y).effects
    ensures Scaled(Analysis(k, r, y).weightedSums, SignTable.Pow2(k) as real, Analysis(k, r, y).effects)
  {
    SignTable.TableOrthogonal(k);
    ContrastsScaleEffects(SignTable.Columns(k), Means(y));
  }

  /** r residuals per run, each the response minus the run's fitted value,
      and the residual means have a zero contrast with every column. */
  lemma {:induction false} AnalysisResiduals(k: nat, r: nat, y: seq<seq<real>>)
    requires r > 0 && Rectangular(y, SignTable.Pow2(k), r)
    ensures Rectangular(Analysis(k, r, y).residuals, SignTable.Pow2(k), r)
    ensures forall i, j :: 0 <= i < |y| && 0 <= j < r ==>
      Analysis(k, r, y).residuals[i][j] == y[i][j] - Analysis(k, r, y).fitted[i]
    ensures forall c :: 0 <= c < |Analysis(k, r, y).cols| ==>
      Contrast(Analysis(k, r, y).cols[c], Means(Analysis(k, r, y).residuals)) == 0.0
  {
    SignTable.TableOrthogonal(k);
    ResidualsOrthogonal(y, SignTable.Columns(k));
  }

  /** Every column but I has as sum of squares its effect squared times r
      times 2^k. */
  lemma {:induction false} AnalysisSquares(k: nat, r: nat, y: seq<seq<real>>)
    requires r > 0 && Rectangular(y, SignTable.Pow2(k), r)
    ensures SquaresTimes(Analysis(k, r, y).ss, Analysis(k, r, y).effects, r, SignTable.Pow2(k))
  {
    var a := Analysis(k, r, y);
    EffectSSEntries(a.effects, r, |y|);
  }

  /** Every percentage is 100 times its sum of squares over SST, and the
      last one is SSE's. */
  lemma {:induction false} AnalysisPercentages(k: nat, r: nat, y: seq<seq<real>>)
    requires r > 0 && Rectangular(y, SignTable.Pow2(k), r)
    ensures Analysis(k, r, y).percentages.Some? ==>
      SharesOf(Analysis(k, r, y).percentages.value, Analysis(k, r, y).ss, Analysis(k, r, y).sse, Analysis(k, r, y).sst)
  {
    var a := Analysis(k, r, y);
    PercentagesEntries(a.ss, a.sse, a.sst);
  }

  /** No sum of squares is negative, I's is 0, and the percentages exist
      exactly when SST is not 0; then each lies between 0 and 100 and
      together, SSE's share included, they make 100. */
  lemma {:induction false} AnalysisShares(k: nat, r: nat, y: seq<seq<real>>)
    requires r > 0 && Rectangular(y, SignTable.Pow2(k), r)
    ensures Analysis(k, r, y).sst >= 0.0 && Analysis(k, r, y).sse >= 0.0
    ensures Analysis(k, r, y).ss[0] == 0.0
    ensures forall c :: 0 <= c < |Analysis(k, r, y).ss| ==> Analysis(k, r, y).ss[c] >= 0.0
    ensures Analysis(k, r, y).percentages.None? <==> Analysis(k, r, y).sst == 0.0
    ensures Analysis(k, r, y).percentages.Some? ==>
      |Analysis(k, r, y).percentages.value| == |Analysis(k, r, y).ss| + 1 &&
      Sum(Analysis(k, r, y).percentages.value) == 100.0 &&
      forall c :: 0 <= c < |Analysis(k, r, y).percentages.value| ==>
        0.0 <= Analysis(k, r, y).percentages.value[c] <= 100.0
  {
    var a := Analysis(k, r, y);
    SignTable.ColumnIOnes(k);
    AnalysisDecomposes(k, r, y);
    EffectSSNonNegative(a.effects, r, |y|);
    PercentagesBetween(a.ss, a.sse, a.sst);
    if a.sst != 0.0 {
      PercentagesSum(a.ss, a.sse, a.sst);
    }
  }
}
