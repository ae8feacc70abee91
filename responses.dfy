/** The checks the program makes before it analyses anything: the ranges of
    k and r, and that every run of the table gets exactly r responses. */
module Responses {
  import opened Outcome

  /** Why a run is refused. */
  datatype Error =
    | FactorsOutOfRange(k: int)
    | ReplicationsOutOfRange(r: int)
    | WrongValueCount(row: nat, count: nat)
    | MissingRow(row: nat)

  /** k must lie in 2 .. 5 (checked first) and r in 1 .. 3. */
  function CheckParameters(k: int, r: int): (bad: Option<Error>)
    ensures bad.None? <==> 2 <= k <= 5 && 1 <= r <= 3
    ensures !(2 <= k <= 5) ==> bad == Some(FactorsOutOfRange(k))
    ensures 2 <= k <= 5 && !(1 <= r <= 3) ==> bad == Some(ReplicationsOutOfRange(r))
  {
    if !(2 <= k <= 5) then Some(FactorsOutOfRange(k))
    else if !(1 <= r <= 3) then Some(ReplicationsOutOfRange(r))
    else None
  }

  /** The first i lines exist and hold r values each. */
  predicate RowsFine(lines: seq<seq<real>>, r: nat, i: nat)
  {
    i <= |lines| && forall j :: 0 <= j < i ==> |lines[j]| == r
  }

  /** err reports the first of the n runs whose line is missing or holds a
      number of values other than r. */
  predicate Rejects(n: nat, r: nat, lines: seq<seq<real>>, err: Error)
  {
    match err
    case MissingRow(i) => i == |lines| < n && RowsFine(lines, r, i)
    case WrongValueCount(i, c) => i < n && i < |lines| && c == |lines[i]| != r && RowsFine(lines, r, i)
    case _ => false
  }

  /** Reads the responses of the n runs, one line per run, stopping at the
      first line that is missing or does not hold exactly r values. */
  method CollectResponses(n: nat, r: nat, lines: seq<seq<real>>) returns (res: Result<seq<seq<real>>, Error>)
    ensures res.Ok? <==> RowsFine(lines, r, n)
    ensures res.Ok? ==> res.value == lines[..n]
    ensures res.Err? ==> Rejects(n, r, lines, res.error)
  {
    var y: seq<seq<real>> := [];
    for idx := 0 to n
      invariant RowsFine(lines, r, idx) && y == lines[..idx]
    {
      if idx >= |lines| {
        return Err(MissingRow(idx));
      }
      var values := lines[idx];
      if |values| != r {
        return Err(WrongValueCount(idx, |values|));
      }
      y := y + [values];
    }
    return Ok(y);
  }

  /** A refusal and an accepted input exclude each other, so the collection
      succeeds exactly when every run has a line of r values. */
  lemma RejectsExcludesFine(n: nat, r: nat, lines: seq<seq<real>>, err: Error)
    requires Rejects(n, r, lines, err)
    ensures !RowsFine(lines, r, n)
  {
  }

  /** The refusal names one error only: the first bad run. */
  lemma RejectsUnique(n: nat, r: nat, lines: seq<seq<real>>, e1: Error, e2: Error)
    requires Rejects(n, r, lines, e1) && Rejects(n, r, lines, e2)
    ensures e1 == e2
  {
  }
}
