# 2^k r factorial experiment, in Dafny

A model of `experimento_2kr.py`, a script that analyses a full factorial
experiment with k factors at two levels (-1 and +1) and r replications of
every run. The script:

- checks that 2 <= k <= 5 and 1 <= r <= 3;
- builds the sign table: the 2^k runs in Cartesian-product order, the column
  I, one column per factor, every pairwise interaction and, only for k >= 3,
  every three-factor interaction;
- reads r responses for every run and averages each run;
- estimates the effect of every column as the sum of sign times mean response
  over the runs, divided by 2^k, and fills the weighted-sum and weighted-mean
  summary rows;
- computes a fitted value per run and the residuals;
- allocates the variation: SST, the sum of squares of every column but I,
  SSE and the percentage of SST each of them explains.

Modules, one per stage of the pipeline:

- `Outcome`: `Option` and `Result`.
- `SignTable`: the runs (`Product`), the columns as sorted lists of factor
  indices (`Terms`, `[]` being I), the table-building loops
  (`GenerateTable` and the methods it calls) and the combinatorial facts:
  which columns exist, how many, no duplicates, balance and orthogonality.
- `RealSums`: sums, dot products and sums of squares over `real`, with the
  algebra the statistics need.
- `Responses`: the range checks and the collection of one line of r values
  per run.
- `Effects`: row means, contrasts and effects (`EstimateEffects`), the
  weighted rows, the fitted-value loop over a preallocated array
  (`FittedValues`) and the residuals. These are stated for any list of
  columns; the properties that need it assume the columns are orthogonal,
  which the generated table is (`SignTable.TableOrthogonal`).
- `Variance`: SST, the effect sums of squares, SSE, the percentages and the
  proof that SST is the sum of the effect sums of squares plus SSE.
- `Experiment`: the whole run (`Run`) and the report it produces,
  specified by the function `Analysis`, with the properties of the report.
- `Example`: the report for one concrete experiment with k = 2 and r = 1.

Responses are exact reals. The percentages are `None` when SST is 0. The
script does not guard that case (it divides by zero).

## Model

| member | source | states |
|---|---|---|
| SignTable.Product | experimento_2kr.py:20 | the runs are 2^k level vectors of length k, built like itertools.product over [-1, 1] |
| SignTable.ProductIsBinary | experimento_2kr.py:19-21 | level of factor f in run i is +1 exactly when binary digit k-1-f of i is 1, so F1 is the most significant digit and the last factor varies fastest |
| SignTable.ProductLevels | experimento_2kr.py:20 | every level in every run is -1 or +1 |
| SignTable.ProductComplete | experimento_2kr.py:20 | every combination of k levels is a run |
| SignTable.ProductDistinct | experimento_2kr.py:20 | no run appears twice |
| SignTable.TermsMembers | experimento_2kr.py:22-33 | a column exists exactly for each set of at most three distinct factors (I, Fi, FiFj with i<j, FiFjFl with i<j<l); triples only when k >= 3; no four- or five-factor column |
| SignTable.TermsCount | experimento_2kr.py:22-33 | the table has 1 + k + C(k,2) columns, plus C(k,3) when k >= 3 |
| SignTable.TermsDistinct | experimento_2kr.py:25-33 | no column is added twice |
| SignTable.ColumnIOnes | experimento_2kr.py:22 | the first column is I and is 1 in every run |
| SignTable.PairColumn | experimento_2kr.py:27 | a column that is Fi times Fj run by run is the column of the pair (i, j) |
| SignTable.TripleColumn | experimento_2kr.py:33 | a column that is Fi times Fj times Fl run by run is the column of the triple (i, j, l) |
| SignTable.TableOrthogonal | experimento_2kr.py:20-33 | every column has 2^k signs; any two different columns, I included, have dot product 0 and each column dotted with itself gives 2^k |
| SignTable.TableBalanced | experimento_2kr.py:20-33 | every column other than I sums to 0 over the runs |
| SignTable.FactorColumns | experimento_2kr.py:19-22 | the first table is I followed by the factor columns F1 .. Fk, taken from the runs |
| SignTable.AddPairsOf | experimento_2kr.py:26-27 | the inner loop appends the pairs (i, j), j = i+1 .. k-1, in that order, each as the product of its factor columns |
| SignTable.AddPairColumns | experimento_2kr.py:25-27 | the pair loops append every pair i < j in loop order |
| SignTable.AddTriplesOf | experimento_2kr.py:32-33 | the innermost loop appends the triples (i, j, l), l = j+1 .. k-1, each as the product of its factor columns |
| SignTable.AddTriplesFrom | experimento_2kr.py:31-33 | the middle loop appends every triple with first factor i, in loop order |
| SignTable.AddTripleColumns | experimento_2kr.py:30-33 | the triple loops append every triple i < j < l in loop order |
| SignTable.GenerateTable | experimento_2kr.py:19-33 | the built table is exactly `Terms(k)` / `Columns(k)`: I, F1 .. Fk, the pairs and, for k >= 3, the triples |
| Responses.CheckParameters | experimento_2kr.py:15-16 | no error exactly when 2 <= k <= 5 and 1 <= r <= 3; k is checked before r, and the error carries the offending value |
| Responses.CollectResponses | experimento_2kr.py:38-42 | succeeds exactly when each of the n runs has a line of r values, and then returns those lines in order; otherwise reports the first run whose line is missing or has the wrong count |
| Responses.RejectsExcludesFine | experimento_2kr.py:41 | a refusal is never issued for an input in which every run has r values |
| Responses.RejectsUnique | experimento_2kr.py:38-42 | only one error can be reported for an input: the first bad run |
| Effects.RowMean | experimento_2kr.py:46 | the mean of a run times its replicate count is the run's total |
| Effects.RowMeanBetween | experimento_2kr.py:46 | a run's mean lies between its smallest and largest replicate |
| Effects.EstimateEffects | experimento_2kr.py:54-56 | the loop yields `EffectsOf`: each effect times 2^k is the column's contrast with the mean responses |
| Effects.WeightedRows | experimento_2kr.py:74-78 | the weighted-sum row is every column's contrast, equal to 2^k times its effect, and the weighted-mean row is the effects |
| Effects.ContrastsScaleEffects | experimento_2kr.py:76-78 | every contrast is the number of runs times the column's effect |
| Effects.FittedValues | experimento_2kr.py:59-64 | the array holds, for every run, the sum over all columns of effect times sign |
| Effects.FittedEffects | experimento_2kr.py:54-64 | in an orthogonal table the effects estimated from the fitted values are the effects the fit was built from |
| Effects.RefitResidualsZero | experimento_2kr.py:54-67 | refitting the fitted values, taken as one replicate per run, gives back the same means, effects and fit, and leaves every residual 0 |
| Effects.ResidualMeans | experimento_2kr.py:67 | the residuals of a run average to its mean response minus its fitted value |
| Effects.ResidualsOrthogonal | experimento_2kr.py:54-67 | the residual means have zero contrast with every column of the table |
| Variance.TotalSS | experimento_2kr.py:87-89 | SST is not negative |
| Variance.ErrorSS | experimento_2kr.py:93 | SSE is not negative |
| Variance.EffectSSNonNegative | experimento_2kr.py:92 | every column's sum of squares is not negative and I's is 0 |
| Variance.GrandMeanIsEffectOfI | experimento_2kr.py:88 | the mean of all r 2^k observations is the effect of I |
| Variance.SumMeans | experimento_2kr.py:46 | r times the sum of the run means is the sum of all observations |
| Variance.TotalSplit | experimento_2kr.py:87-89 | SST is the within-run variation plus r times the squared distance of the run means from the grand mean: SST = W + r (Σ m_i² − 2^k e_0²), with W the sum of squared deviations of each response from its run mean |
| Variance.ErrorSplit | experimento_2kr.py:93 | SSE is the within-run variation plus r times the part of the run means the fit leaves unexplained: SSE = W + r (Σ m_i² − 2^k Σ_c e_c²) |
| Variance.Decomposition | experimento_2kr.py:87-93 | for an orthogonal table whose first column is I, SST equals the sum of the effect sums of squares plus SSE |
| Variance.PercentagesSum | experimento_2kr.py:100-103 | when SST is not 0 and equals the sum of SS plus SSE, the percentages, SSE's included, add up to 100 |
| Variance.PercentagesBetween | experimento_2kr.py:96-103 | the percentages are undefined exactly when SST is 0, and then each lies between 0 and 100 |
| Experiment.Analysis | experimento_2kr.py:19-103 | the report carries the generated table and the responses it was computed from |
| Experiment.Analyse | experimento_2kr.py:45-103 | the step-by-step computation yields `Analysis` |
| Experiment.Run | experimento_2kr.py:15-103 | an out-of-range k or r is reported first; otherwise the run succeeds exactly when every run has r values, fails with the first bad run otherwise, and on success the report is `Analysis` of the first 2^k lines |
| Experiment.AnalysisDecomposes | experimento_2kr.py:87-103 | in the report, SST is the sum of the column sums of squares plus SSE for every k in range |
| Experiment.AnalysisGrandMean | experimento_2kr.py:56-88 | the reported effect of I is the mean of all observations |
| Experiment.AnalysisWeighted | experimento_2kr.py:74-78 | the weighted-sum row is 2^k times the effects and the weighted-mean row is the effects |
| Experiment.AnalysisResiduals | experimento_2kr.py:59-67 | r residuals per run, each the response minus the run's fitted value, with zero contrast against every column |
| Example.RunsOfTwo | experimento_2kr.py:20 | for k = 2 the runs are (-1,-1), (-1,1), (1,-1), (1,1), in that order |
| Example.TermsOfTwo | experimento_2kr.py:22-33 | for k = 2 the columns are I, F1, F2 and F1F2, with no triple |
| Example.ColumnsOfTwo | experimento_2kr.py:19-27 | the k = 2 sign table, column by column |
| Example.WorkedExample | experimento_2kr.py:46-103 | for k = 2, r = 1 and responses 10, 12, 14, 16: effects 13, 2, 1, 0; fitted values equal to the responses; SST 20; SS 0, 16, 4, 0; SSE 0; percentages 0, 80, 20, 0 and 0 for the error |
| Experiment.AnalysisSquares | experimento_2kr.py:92 | every column but I has as sum of squares its effect squared times r times 2^k |
| Experiment.AnalysisPercentages | experimento_2kr.py:96-103 | when the percentages exist, there is one per column plus SSE's last, each 100 times its sum of squares over SST |
| Experiment.AnalysisShares | experimento_2kr.py:92-103 | SST and SSE are not negative, I's sum of squares is 0, and the percentages exist exactly when SST is not 0; then each lies between 0 and 100 and they add up to 100 |

## Left out

- Console input and output. The script prompts for k, r and the response lines, and prints the tables (lines 12-13, 37-42, 106-110). The model takes k and r as integers and the response lines as already-parsed `seq<seq<real>>`.
- Parsing of responses with `split()` and `float` (line 39-40). A token that is not a number is not modelled.
- Fewer response lines than runs: in the script, `input()` would raise at end of input. The model reports `MissingRow`. Lines beyond the 2^k runs are ignored.
- Creating the `results` directory (line 9) and the commented-out pie chart (lines 112-119). These are filesystem and plotting side effects.
- pandas and numpy presentation: the DataFrame layout, the column-name strings such as `"F1F2"` (columns are named by factor-index lists instead), the `''` filler cells of the summary rows (lines 81-84), `round(2)` and `fillna(0)` as a library call. The value `fillna` supplies, I's sum of squares 0, is modelled.
- Floating point. All arithmetic is on exact `real`s, so rounding, NaN and infinity are not modelled. For SST = 0 the script divides by zero; the model returns `None` for the percentages instead.
- Variance.EffectSS, Variance.Percentages, Effects.Residuals, Effects.Means: their own contracts state only lengths. Their bodies are the formulas of lines 46, 67, 92, 100 and 103. The entries they produce are stated by AnalysisSquares, AnalysisPercentages, AnalysisResiduals and ResidualMeans, and their sums and bounds by Decomposition, PercentagesSum and PercentagesBetween.
