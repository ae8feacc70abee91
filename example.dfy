/** A worked case of the program for k = 2 and r = 1: the runs
    (-1,-1), (-1,1), (1,-1), (1,1) with responses 10, 12, 14 and 16. The
    effects are 13 (I), 2 (F1), 1 (F2) and 0 (F1F2), the fit is exact, SST
    is 20, F1 explains 80 percent and F2 20 percent. */
module Example {
  import opened Outcome
  import opened RealSums
  import opened Effects
  import opened Variance
  import opened Experiment
  import SignTable

  /** The four runs of two factors, the last factor varying fastest. */
  lemma RunsOfTwo()
    ensures SignTable.Product(2) == [[-1, -1], [-1, 1], [1, -1], [1, 1]]
  {
    var none: seq<int> := [];
    assert SignTable.Product(0) == [none];
    assert [-1] + none == [-1] && [1] + none == [1];
    assert SignTable.Prepend(-1, [none])[0] == [-1];
    assert SignTable.Prepend(1, [none])[0] == [1];
    assert SignTable.Product(1) == [[-1], [1]];
    assert [-1] + [-1] == [-1, -1] && [-1] + [1] == [-1, 1] && [1] + [-1] == [1, -1] && [1] + [1] == [1, 1];
    assert SignTable.Prepend(-1, [[-1], [1]]) == [[-1, -1], [-1, 1]];
    assert SignTable.Prepend(1, [[-1], [1]]) == [[1, -1], [1, 1]];
  }

  /** For two factors the table has I, F1, F2 and F1F2 and no triple. */
  lemma TermsOfTwo()
    ensures SignTable.Terms(2) == [[], [0], [1], [0, 1]]
  {
    assert SignTable.MainTerms(2) == [[0], [1]];
    assert SignTable.PairBlock(1, 2) == [];
    assert SignTable.PairBlock(0, 2) == [[0, 1]];
    assert SignTable.PairsBelow(2, 2) == [[0, 1]];
  }

  /** The sign table for two factors, column by column. */
  lemma ColumnsOfTwo()
    ensures SignTable.Columns(2) == [[1, 1, 1, 1], [-1, -1, 1, 1], [-1, 1, -1, 1], [1, -1, -1, 1]]
  {
    RunsOfTwo();
    TermsOfTwo();
    assert SignTable.Column(2, []) == [1, 1, 1, 1];
    assert SignTable.Column(2, [0]) == [-1, -1, 1, 1];
    assert SignTable.Column(2, [1]) == [-1, 1, -1, 1];
    assert SignTable.Column(2, [0, 1]) == [1, -1, -1, 1];
  }

  lemma ExampleMeans()
    ensures Means([[10.0], [12.0], [14.0], [16.0]]) == [10.0, 12.0, 14.0, 16.0]
  {
    assert Sum([10.0]) == 10.0 && Sum([12.0]) == 12.0 && Sum([14.0]) == 14.0 && Sum([16.0]) == 16.0;
  }

  lemma ExampleEffects()
    ensures EffectsOf(SignTable.Columns(2), [10.0, 12.0, 14.0, 16.0]) == [13.0, 2.0, 1.0, 0.0]
  {
    ColumnsOfTwo();
    var m := [10.0, 12.0, 14.0, 16.0];
    assert ToReal([1, 1, 1, 1]) == [1.0, 1.0, 1.0, 1.0];
    assert ToReal([-1, -1, 1, 1]) == [-1.0, -1.0, 1.0, 1.0];
    assert ToReal([-1, 1, -1, 1]) == [-1.0, 1.0, -1.0, 1.0];
    assert ToReal([1, -1, -1, 1]) == [1.0, -1.0, -1.0, 1.0];
    assert Dot([1.0, 1.0, 1.0, 1.0], m) == 52.0;
    assert Dot([-1.0, -1.0, 1.0, 1.0], m) == 8.0;
    assert Dot([-1.0, 1.0, -1.0, 1.0], m) == 4.0;
    assert Dot([1.0, -1.0, -1.0, 1.0], m) == 0.0;
  }

  lemma ExampleFitted()
    ensures Fitted([13.0, 2.0, 1.0, 0.0], SignTable.Columns(2), 4) == [10.0, 12.0, 14.0, 16.0]
  {
    ColumnsOfTwo();
    var e, cols := [13.0, 2.0, 1.0, 0.0], SignTable.Columns(2);
    assert FitAt(e, cols, 4, 0, 4) == 10.0;
    assert FitAt(e, cols, 4, 1, 4) == 12.0;
    assert FitAt(e, cols, 4, 2, 4) == 14.0;
    assert FitAt(e, cols, 4, 3, 4) == 16.0;
  }

  lemma ExampleError()
    ensures ErrorSS(Residuals([[10.0], [12.0], [14.0], [16.0]], [10.0, 12.0, 14.0, 16.0])) == 0.0
  {
    var res := Residuals([[10.0], [12.0], [14.0], [16.0]], [10.0, 12.0, 14.0, 16.0]);
    assert res[0] == [0.0] && res[1] == [0.0] && res[2] == [0.0] && res[3] == [0.0];
    assert res == [[0.0], [0.0], [0.0], [0.0]];
    assert Flatten(res) == [0.0, 0.0, 0.0, 0.0];
  }

  lemma ExampleTotal()
    ensures |Flatten([[10.0], [12.0], [14.0], [16.0]])| > 0
    ensures TotalSS([[10.0], [12.0], [14.0], [16.0]]) == 20.0
  {
    var y := [[10.0], [12.0], [14.0], [16.0]];
    assert Flatten(y) == [10.0, 12.0, 14.0, 16.0];
    assert GrandMean(y) == 13.0;
  }

  lemma ExampleShares()
    ensures EffectSS([13.0, 2.0, 1.0, 0.0], 1, 4) == [0.0, 16.0, 4.0, 0.0]
    ensures Percentages([0.0, 16.0, 4.0, 0.0], 0.0, 20.0) == Some([0.0, 80.0, 20.0, 0.0, 0.0])
  {
    var p := Percentages([0.0, 16.0, 4.0, 0.0], 0.0, 20.0).value;
    assert p[0] == 0.0 && p[1] == 80.0 && p[2] == 20.0 && p[3] == 0.0 && p[4] == 0.0;
    assert p == [0.0, 80.0, 20.0, 0.0, 0.0];
  }

  /** The whole report for the worked case. */
  lemma WorkedExample()
    ensures Rectangular([[10.0], [12.0], [14.0], [16.0]], SignTable.Pow2(2), 1)
    ensures Analysis(2, 1, [[10.0], [12.0], [14.0], [16.0]]).cols == [[1, 1, 1, 1], [-1, -1, 1, 1], [-1, 1, -1, 1], [1, -1, -1, 1]]
    ensures Analysis(2, 1, [[10.0], [12.0], [14.0], [16.0]]).means == [10.0, 12.0, 14.0, 16.0]
    ensures Analysis(2, 1, [[10.0], [12.0], [14.0], [16.0]]).effects == [13.0, 2.0, 1.0, 0.0]
    ensures Analysis(2, 1, [[10.0], [12.0], [14.0], [16.0]]).fitted == [10.0, 12.0, 14.0, 16.0]
    ensures Analysis(2, 1, [[10.0], [12.0], [14.0], [16.0]]).sst == 20.0
    ensures Analysis(2, 1, [[10.0], [12.0], [14.0], [16.0]]).ss == [0.0, 16.0, 4.0, 0.0]
    ensures Analysis(2, 1, [[10.0], [12.0], [14.0], [16.0]]).sse == 0.0
    ensures Analysis(2, 1, [[10.0], [12.0], [14.0], [16.0]]).percentages == Some([0.0, 80.0, 20.0, 0.0, 0.0])
  {
    ColumnsOfTwo();
    ExampleMeans();
    ExampleEffects();
    ExampleFitted();
    ExampleError();
    ExampleTotal();
    ExampleShares();
  }
}
