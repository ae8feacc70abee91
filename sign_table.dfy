/** The design generator of a 2^k factorial experiment: the runs (every
    combination of the levels -1 and +1 of k factors, in Cartesian-product
    order), the columns of the sign table (I, the k factors, every pairwise and,
    for k >= 3, every triple interaction) and the orthogonality of those columns. */
module SignTable {

  /** A column of the sign table, named by the factors it multiplies: their
      0-based indices in increasing order. [] is the constant column I, [f] is
      the factor F(f+1), [i, j] the interaction F(i+1)F(j+1), and so on. */
  type Term = seq<nat>

  function Pow2(n: nat): (p: nat)
    ensures p >= 1
  {
    if n == 0 then 1 else 2 * Pow2(n - 1)
  }

  /** Every row of `rows` with the level `x` put in front of it. */
  function Prepend(x: int, rows: seq<seq<int>>): seq<seq<int>>
  {
    seq(|rows|, i requires 0 <= i < |rows| => [x] + rows[i])
  }

  /** The runs of the design: the k-fold Cartesian product of [-1, 1], in the
      order itertools.product enumerates it (the first factor varies slowest,
      the last fastest). */
  function Product(k: nat): (rows: seq<seq<int>>)
    ensures |rows| == Pow2(k)
    ensures forall i :: 0 <= i < |rows| ==> |rows[i]| == k
  {
    if k == 0 then [[]] else Prepend(-1, Product(k - 1)) + Prepend(1, Product(k - 1))
  }

  /** Binary digit `p` of `i`. */
  function Bit(i: nat, p: nat): nat
  {
    if p == 0 then i % 2 else Bit(i / 2, p - 1)
  }

  predicate IsLevelVector(v: seq<int>)
  {
    forall a :: 0 <= a < |v| ==> v[a] == -1 || v[a] == 1
  }

  /** Adding 2^q to i leaves its digits below q unchanged. */
  lemma {:induction false} BitAddHigh(i: nat, p: nat, q: nat)
    requires p < q
    ensures Bit(i + Pow2(q), p) == Bit(i, p)
  {
    if p > 0 {
      assert (i + Pow2(q)) / 2 == i / 2 + Pow2(q - 1);
      BitAddHigh(i / 2, p - 1, q - 1);
    }
  }

  /** Digit q of a number below 2^(q+1) says whether it reaches 2^q. */
  lemma {:induction false} TopBit(i: nat, q: nat)
    requires i < 2 * Pow2(q)
    ensures Bit(i, q) == if i >= Pow2(q) then 1 else 0
  {
    if q > 0 {
      TopBit(i / 2, q - 1);
    }
  }

  /** Run i of k factors: the first factor's level, then run i mod 2^(k-1) of the rest. */
  lemma ProductAt(k: nat, i: nat)
    requires k > 0 && i < Pow2(k)
    ensures Product(k)[i] == if i < Pow2(k - 1) then [-1] + Product(k - 1)[i]
                             else [1] + Product(k - 1)[i - Pow2(k - 1)]
  {
  }

  /** Row i of the design reads i in binary, F1 being the most significant
      digit: digit 0 is the level -1 and digit 1 the level +1. */
  lemma {:induction false} ProductIsBinary(k: nat, i: nat, f: nat)
    requires i < Pow2(k) && f < k
    ensures Product(k)[i][f] == if Bit(i, k - 1 - f) == 1 then 1 else -1
  {
    var h := Pow2(k - 1);
    ProductAt(k, i);
    if f == 0 {
      TopBit(i, k - 1);
    } else if i < h {
      ProductIsBinary(k - 1, i, f - 1);
    } else {
      ProductIsBinary(k - 1, i - h, f - 1);
      BitAddHigh(i - h, k - 1 - f, k - 1);
    }
  }

  /** Every level in the design is -1 or +1. */
  lemma {:induction false} ProductLevels(k: nat, i: nat)
    requires i < Pow2(k)
    ensures IsLevelVector(Product(k)[i])
  {
    if k > 0 {
      var h := Pow2(k - 1);
      if i < h {
        ProductLevels(k - 1, i);
        assert Product(k)[i] == [-1] + Product(k - 1)[i];
      } else {
        ProductLevels(k - 1, i - h);
        assert Product(k)[i] == [1] + Product(k - 1)[i - h];
      }
    }
  }

  /** Every combination of levels is a run of the design. */
  lemma {:induction false} ProductComplete(k: nat, v: seq<int>)
    requires |v| == k && IsLevelVector(v)
    ensures v in Product(k)
  {
    if k > 0 {
      var rest := v[1..];
      ProductComplete(k - 1, rest);
      var i :| 0 <= i < |Product(k - 1)| && Product(k - 1)[i] == rest;
      var h := Pow2(k - 1);
      assert v == [v[0]] + rest;
      if v[0] == -1 {
        assert Product(k)[i] == v;
      } else {
        assert Product(k)[h + i] == v;
      }
    }
  }

  /** No run appears twice. */
  lemma {:induction false} ProductDistinct(k: nat, i: nat, j: nat)
    requires i < j < Pow2(k)
    ensures Product(k)[i] != Product(k)[j]
  {
    var half := Product(k - 1);
    var h := Pow2(k - 1);
    if j < h {
      ProductDistinct(k - 1, i, j);
      assert Product(k)[i] == [-1] + half[i] && Product(k)[j] == [-1] + half[j];
      assert Product(k)[i][1..] == half[i] && Product(k)[j][1..] == half[j];
    } else if h <= i {
      ProductDistinct(k - 1, i - h, j - h);
      assert Product(k)[i] == [1] + half[i - h] && Product(k)[j] == [1] + half[j - h];
      assert Product(k)[i][1..] == half[i - h] && Product(k)[j][1..] == half[j - h];
    } else {
      assert Product(k)[i][0] == -1 && Product(k)[j][0] == 1;
    }
  }

  /** The sign of the column t in a run: the product of the run's levels of
      the factors in t (a factor index past the end of the run counts as 1;
      no column of the table has one). */
  function Sign(row: seq<int>, t: Term): int
  {
    if t == [] then 1 else (if t[0] < |row| then row[t[0]] else 1) * Sign(row, t[1..])
  }

  /** The signs of the column t over the given runs. */
  function ColumnOf(rows: seq<seq<int>>, t: Term): seq<int>
  {
    seq(|rows|, i requires 0 <= i < |rows| => Sign(rows[i], t))
  }

  /** The column t of the k-factor sign table, one sign per run. */
  function Column(k: nat, t: Term): seq<int>
  {
    ColumnOf(Product(k), t)
  }

  /** t names factors of a k-factor design, each at most once, in increasing order. */
  predicate Ascending(t: Term, k: nat)
  {
    Increasing(t) && forall a :: 0 <= a < |t| ==> t[a] < k
  }

  /** The factor columns F1 .. Fk. */
  function MainTerms(k: nat): seq<Term>
  {
    seq(k, f requires 0 <= f < k => [f as nat])
  }

  /** The pairs (i, j) for j = i+1 .. k-1, in increasing j. */
  function PairBlock(i: nat, k: nat): seq<Term>
  {
    seq(if i < k then k - 1 - i else 0, d requires 0 <= d => [i, i + 1 + d as nat])
  }

  /** The pairs whose first factor is below i, in the program's loop order. */
  function PairsBelow(i: nat, k: nat): seq<Term>
  {
    if i == 0 then [] else PairsBelow(i - 1, k) + PairBlock(i - 1, k)
  }

  /** The triples (i, j, l) for l = j+1 .. k-1, in increasing l. */
  function TripleBlock(i: nat, j: nat, k: nat): seq<Term>
  {
    seq(if j < k then k - 1 - j else 0, d requires 0 <= d => [i, j, j + 1 + d as nat])
  }

  /** The triples whose first factor is i and whose second is below j. */
  function TriplesOfBelow(i: nat, j: nat, k: nat): seq<Term>
    decreases j
  {
    if j <= i + 1 then [] else TriplesOfBelow(i, j - 1, k) + TripleBlock(i, j - 1, k)
  }

  /** The triples whose first factor is below i, in the program's loop order. */
  function TriplesBelow(i: nat, k: nat): seq<Term>
  {
    if i == 0 then [] else TriplesBelow(i - 1, k) + TriplesOfBelow(i - 1, k, k)
  }

  /** I, the factors and the pairwise interactions. */
  function BaseTerms(k: nat): seq<Term>
  {
    [[]] + MainTerms(k) + PairsBelow(k, k)
  }

  /** The columns of the sign table, in the order the program creates them:
      I, F1 .. Fk, the pairs and, only when k >= 3, the triples. */
  function Terms(k: nat): seq<Term>
  {
    BaseTerms(k) + if k >= 3 then TriplesBelow(k, k) else []
  }

  /** The whole sign table, column by column. */
  function Columns(k: nat): seq<seq<int>>
  {
    ColumnsOf(k, Terms(k))
  }

  // ----- which columns exist -----

  lemma {:induction false} PairsBelowMembers(i: nat, k: nat, t: Term)
    ensures t in PairsBelow(i, k) <==> |t| == 2 && t[0] < i && t[0] < t[1] < k
  {
    if i > 0 {
      PairsBelowMembers(i - 1, k, t);
      assert t in PairsBelow(i, k) <==> t in PairsBelow(i - 1, k) || t in PairBlock(i - 1, k);
      if |t| == 2 && t[0] == i - 1 && t[0] < t[1] < k {
        assert PairBlock(i - 1, k)[t[1] - i] == t;
      }
    }
  }

  lemma {:induction false} TriplesOfBelowMembers(i: nat, j: nat, k: nat, t: Term)
    ensures t in TriplesOfBelow(i, j, k) <==> |t| == 3 && t[0] == i && i < t[1] < j && t[1] < t[2] < k
  {
    if j > i + 1 {
      TriplesOfBelowMembers(i, j - 1, k, t);
      assert t in TriplesOfBelow(i, j, k) <==> t in TriplesOfBelow(i, j - 1, k) || t in TripleBlock(i, j - 1, k);
      if |t| == 3 && t[0] == i && t[1] == j - 1 && t[1] < t[2] < k {
        assert TripleBlock(i, j - 1, k)[t[2] - j] == t;
      }
    }
  }

  lemma {:induction false} TriplesBelowMembers(i: nat, k: nat, t: Term)
    ensures t in TriplesBelow(i, k) <==> |t| == 3 && t[0] < i && t[0] < t[1] < t[2] < k
  {
    if i > 0 {
      TriplesBelowMembers(i - 1, k, t);
      TriplesOfBelowMembers(i - 1, k, k, t);
    }
  }

  /** The table has a column for exactly the sets of at most three distinct
      factors: I, each factor, each pair i < j and each triple i < j < l
      (these exist only when k >= 3); no four- or five-factor column. */
  lemma TermsMembers(k: nat, t: Term)
    ensures t in Terms(k) <==> Ascending(t, k) && |t| <= 3
  {
    PairsBelowMembers(k, k, t);
    TriplesBelowMembers(k, k, t);
    assert t in Terms(k) <==> t == [] || t in MainTerms(k) || t in PairsBelow(k, k)
                              || (k >= 3 && t in TriplesBelow(k, k));
    if |t| == 1 && t[0] < k {
      assert MainTerms(k)[t[0]] == t;
    }
    if Ascending(t, k) && |t| == 3 {
      assert t[0] < t[1] < t[2] < k;
    }
  }

  // ----- how many columns -----

  lemma {:induction false} PairsBelowCount(i: nat, k: nat)
    requires i <= k
    ensures 2 * |PairsBelow(i, k)| == i * (2 * k - i - 1)
  {
    if i > 0 {
      PairsBelowCount(i - 1, k);
      assert |PairBlock(i - 1, k)| == k - i;
      assert (i - 1) * (2 * k - i) + 2 * (k - i) == i * (2 * k - i - 1);
    }
  }

  lemma {:induction false} TriplesOfBelowCount(i: nat, j: nat, k: nat)
    requires i + 1 <= j <= k
    ensures 2 * |TriplesOfBelow(i, j, k)| == (j - i - 1) * (2 * k - i - j - 2)
  {
    if j > i + 1 {
      TriplesOfBelowCount(i, j - 1, k);
      assert |TripleBlock(i, j - 1, k)| == k - j;
      var u, w := j - 1 - i, 2 * k - i - j - 1;
      assert 2 * |TriplesOfBelow(i, j, k)| == (u - 1) * w + (w - u);
      StepIdentity(u, w);
    }
  }

  lemma StepIdentity(u: int, w: int)
    ensures (u - 1) * w + (w - u) == u * (w - 1)
  {
  }

  lemma CubeStepIdentity(u: int, v: int)
    requires v == u * (u - 1)
    ensures (u + 1) * u * (u - 1) - 3 * v == u * (u - 1) * (u - 2)
  {
    assert (u + 1) * u * (u - 1) == (u + 1) * v;
    assert u * (u - 1) * (u - 2) == v * (u - 2);
  }

  lemma {:induction false} TriplesBelowCount(i: nat, k: nat)
    requires i <= k
    ensures 6 * |TriplesBelow(i, k)| == k * (k - 1) * (k - 2) - (k - i) * (k - i - 1) * (k - i - 2)
  {
    if i > 0 {
      TriplesBelowCount(i - 1, k);
      TriplesOfBelowCount(i - 1, k, k);
      var u := k - i;
      var v := u * (u - 1);
      assert 2 * |TriplesOfBelow(i - 1, k, k)| == v;
      assert (k - (i - 1)) * (k - (i - 1) - 1) * (k - (i - 1) - 2) == (u + 1) * u * (u - 1);
      CubeStepIdentity(u, v);
    }
  }

  /** The table has 1 + k + C(k,2) columns, plus C(k,3) when k >= 3. */
  lemma TermsCount(k: nat)
    ensures |Terms(k)| == 1 + k + k * (k - 1) / 2 + if k >= 3 then k * (k - 1) * (k - 2) / 6 else 0
  {
    PairsBelowCount(k, k);
    TriplesBelowCount(k, k);
    assert (k - k) * (k - k - 1) * (k - k - 2) == 0;
  }

  // ----- no column twice -----

  predicate Distinct<T(==)>(s: seq<T>)
  {
    forall a, b :: 0 <= a < b < |s| ==> s[a] != s[b]
  }

  lemma DistinctConcat<T>(s1: seq<T>, s2: seq<T>)
    requires Distinct(s1) && Distinct(s2)
    requires forall a :: 0 <= a < |s1| ==> s1[a] !in s2
    ensures Distinct(s1 + s2)
  {
    forall a, b | 0 <= a < b < |s1 + s2|
      ensures (s1 + s2)[a] != (s1 + s2)[b]
    {
      if a < |s1| && |s1| <= b {
        assert (s1 + s2)[a] == s1[a] && (s1 + s2)[b] in s2;
      }
    }
  }

  lemma {:induction false} PairsBelowDistinct(i: nat, k: nat)
    ensures Distinct(PairsBelow(i, k))
  {
    if i > 0 {
      PairsBelowDistinct(i - 1, k);
      var p := PairsBelow(i - 1, k);
      forall a | 0 <= a < |p| ensures p[a] !in PairBlock(i - 1, k) {
        PairsBelowMembers(i - 1, k, p[a]);
      }
      DistinctConcat(PairsBelow(i - 1, k), PairBlock(i - 1, k));
    }
  }

  lemma {:induction false} TriplesOfBelowDistinct(i: nat, j: nat, k: nat)
    ensures Distinct(TriplesOfBelow(i, j, k))
    decreases j
  {
    if j > i + 1 {
      TriplesOfBelowDistinct(i, j - 1, k);
      var p := TriplesOfBelow(i, j - 1, k);
      forall a | 0 <= a < |p| ensures p[a] !in TripleBlock(i, j - 1, k) {
        TriplesOfBelowMembers(i, j - 1, k, p[a]);
      }
      DistinctConcat(TriplesOfBelow(i, j - 1, k), TripleBlock(i, j - 1, k));
    }
  }

  lemma {:induction false} TriplesBelowDistinct(i: nat, k: nat)
    ensures Distinct(TriplesBelow(i, k))
  {
    if i > 0 {
      TriplesBelowDistinct(i - 1, k);
      TriplesOfBelowDistinct(i - 1, k, k);
      var p := TriplesBelow(i - 1, k);
      forall a | 0 <= a < |p| ensures p[a] !in TriplesOfBelow(i - 1, k, k) {
        TriplesBelowMembers(i - 1, k, p[a]);
        TriplesOfBelowMembers(i - 1, k, k, p[a]);
      }
      DistinctConcat(TriplesBelow(i - 1, k), TriplesOfBelow(i - 1, k, k));
    }
  }

  /** No column of the table appears twice. */
  lemma TermsDistinct(k: nat)
    ensures Distinct(Terms(k))
  {
    var mains, pairs := MainTerms(k), PairsBelow(k, k);
    PairsBelowDistinct(k, k);
    forall a | 0 <= a < |pairs| ensures |pairs[a]| == 2 {
      PairsBelowMembers(k, k, pairs[a]);
    }
    DistinctConcat([[]], mains);
    DistinctConcat([[]] + mains, pairs);
    if k >= 3 {
      var triples := TriplesBelow(k, k);
      TriplesBelowDistinct(k, k);
      var base := BaseTerms(k);
      forall a | 0 <= a < |base| ensures base[a] !in triples {
        TriplesBelowMembers(k, k, base[a]);
      }
      DistinctConcat(BaseTerms(k), triples);
    } else {
      assert Terms(k) == BaseTerms(k);
    }
  }

  // ----- orthogonality -----

  function IntDot(u: seq<int>, v: seq<int>): int
    requires |u| == |v|
  {
    if u == [] then 0 else u[0] * v[0] + IntDot(u[1..], v[1..])
  }

  function IntSum(u: seq<int>): int
  {
    if u == [] then 0 else u[0] + IntSum(u[1..])
  }

  /** The dot product of the columns t1 and t2 over the given runs. */
  function SignDot(rows: seq<seq<int>>, t1: Term, t2: Term): int
  {
    if rows == [] then 0 else Sign(rows[0], t1) * Sign(rows[0], t2) + SignDot(rows[1..], t1, t2)
  }

  lemma {:induction false} SignDotConcat(a: seq<seq<int>>, b: seq<seq<int>>, t1: Term, t2: Term)
    ensures SignDot(a + b, t1, t2) == SignDot(a, t1, t2) + SignDot(b, t1, t2)
  {
    if a != [] {
      assert (a + b)[0] == a[0] && (a + b)[1..] == a[1..] + b;
      SignDotConcat(a[1..], b, t1, t2);
    } else {
      assert a + b == b;
    }
  }

  /** t with every factor index lowered by one (for a run with its first factor removed). */
  function Lower(t: Term): Term
  {
    seq(|t|, a requires 0 <= a < |t| => if t[a] == 0 then 0 else t[a] - 1)
  }

  /** t without the first factor. */
  function Drop0(t: Term): Term
  {
    if t != [] && t[0] == 0 then t[1..] else t
  }

  /** What the first factor's level x contributes to the sign of t. */
  function Lead(x: int, t: Term): int
  {
    if t != [] && t[0] == 0 then x else 1
  }

  lemma {:induction false} SignLower(x: int, rest: seq<int>, u: Term)
    requires forall a :: 0 <= a < |u| ==> u[a] >= 1
    ensures Sign([x] + rest, u) == Sign(rest, Lower(u))
  {
    if u != [] {
      SignLower(x, rest, u[1..]);
      assert Lower(u)[1..] == Lower(u[1..]);
    }
  }

  /** No factor repeats and the factors come in increasing order. */
  predicate Increasing(t: Term)
  {
    forall a, b :: 0 <= a < b < |t| ==> t[a] < t[b]
  }

  /** The sign of t in a run [x] + rest, split into the first factor's share
      and the sign of the remaining factors in rest. */
  lemma SignCons(x: int, rest: seq<int>, t: Term)
    requires Increasing(t)
    ensures Sign([x] + rest, t) == Lead(x, t) * Sign(rest, Lower(Drop0(t)))
  {
    if t != [] && t[0] == 0 {
      SignLower(x, rest, t[1..]);
    } else if t != [] {
      SignLower(x, rest, t);
    }
  }

  lemma {:induction false} SignDotPrepend(x: int, rows: seq<seq<int>>, t1: Term, t2: Term)
    requires Increasing(t1) && Increasing(t2)
    ensures SignDot(Prepend(x, rows), t1, t2)
         == Lead(x, t1) * Lead(x, t2) * SignDot(rows, Lower(Drop0(t1)), Lower(Drop0(t2)))
  {
    if rows != [] {
      var u1, u2 := Lower(Drop0(t1)), Lower(Drop0(t2));
      assert Prepend(x, rows)[0] == [x] + rows[0];
      assert Prepend(x, rows)[1..] == Prepend(x, rows[1..]);
      SignDotPrepend(x, rows[1..], t1, t2);
      SignCons(x, rows[0], t1);
      SignCons(x, rows[0], t2);
      Regroup(Lead(x, t1), Lead(x, t2), Sign(rows[0], u1), Sign(rows[0], u2), SignDot(rows[1..], u1, u2));
    }
  }

  lemma Regroup(l1: int, l2: int, s1: int, s2: int, d: int)
    ensures (l1 * s1) * (l2 * s2) + l1 * l2 * d == l1 * l2 * (s1 * s2 + d)
  {
  }

  /** Removing the first factor keeps a term ascending, one design smaller. */
  lemma RestAscending(t: Term, k: nat)
    requires k > 0 && Ascending(t, k)
    ensures Ascending(Lower(Drop0(t)), k - 1)
  {
    var d := Drop0(t);
    assert forall a :: 0 <= a < |d| ==> d[a] >= 1 by {
      if t != [] && t[0] == 0 {
        assert forall a :: 0 <= a < |d| ==> d[a] == t[a + 1] && t[0] < t[a + 1];
      } else if t != [] {
        assert forall a :: 0 <= a < |d| ==> t[0] <= d[a];
      }
    }
  }

  /** Two terms with the same first-factor share and the same rest are equal. */
  lemma RestInjective(t1: Term, t2: Term)
    requires Increasing(t1) && Increasing(t2)
    requires (t1 != [] && t1[0] == 0) == (t2 != [] && t2[0] == 0)
    requires Lower(Drop0(t1)) == Lower(Drop0(t2))
    ensures t1 == t2
  {
    var d1, d2 := Drop0(t1), Drop0(t2);
    assert forall a :: 0 <= a < |d1| ==> d1[a] >= 1 by {
      if t1 != [] && t1[0] == 0 {
        assert forall a :: 0 <= a < |d1| ==> d1[a] == t1[a + 1];
      } else if t1 != [] {
        assert forall a :: 0 <= a < |d1| ==> t1[0] <= d1[a];
      }
    }
    assert forall a :: 0 <= a < |d2| ==> d2[a] >= 1 by {
      if t2 != [] && t2[0] == 0 {
        assert forall a :: 0 <= a < |d2| ==> d2[a] == t2[a + 1];
      } else if t2 != [] {
        assert forall a :: 0 <= a < |d2| ==> t2[0] <= d2[a];
      }
    }
    assert |d1| == |d2|;
    assert forall a :: 0 <= a < |d1| ==> d1[a] == Lower(d1)[a] + 1 == Lower(d2)[a] + 1 == d2[a];
    assert d1 == d2;
    if t1 != [] && t1[0] == 0 {
      assert t1 == [0] + d1 && t2 == [0] + d2;
    }
  }

  /** The dot product over the runs of k factors, split by the first factor:
      both halves give the dot product of the remaining factors over the runs
      of k - 1 factors, weighted by what the first factor contributes. */
  lemma ProductHalves(k: nat, t1: Term, t2: Term)
    requires k > 0 && Increasing(t1) && Increasing(t2)
    ensures SignDot(Product(k), t1, t2)
         == (Lead(-1, t1) * Lead(-1, t2) + Lead(1, t1) * Lead(1, t2))
            * SignDot(Product(k - 1), Lower(Drop0(t1)), Lower(Drop0(t2)))
  {
    var half := Product(k - 1);
    assert Product(k) == Prepend(-1, half) + Prepend(1, half);
    SignDotConcat(Prepend(-1, half), Prepend(1, half), t1, t2);
    SignDotPrepend(-1, half, t1, t2);
    SignDotPrepend(1, half, t1, t2);
    Distribute(Lead(-1, t1) * Lead(-1, t2), Lead(1, t1) * Lead(1, t2),
               SignDot(half, Lower(Drop0(t1)), Lower(Drop0(t2))));
  }

  lemma Distribute(a: int, b: int, d: int)
    ensures a * d + b * d == (a + b) * d
  {
  }

  /** Any two different columns of the full design are orthogonal over the runs. */
  lemma {:induction false} ProductOrthogonal(k: nat, t1: Term, t2: Term)
    requires Ascending(t1, k) && Ascending(t2, k) && t1 != t2
    ensures SignDot(Product(k), t1, t2) == 0
  {
    if k > 0 {
      ProductHalves(k, t1, t2);
      var u1, u2 := Lower(Drop0(t1)), Lower(Drop0(t2));
      if (t1 != [] && t1[0] == 0) == (t2 != [] && t2[0] == 0) {
        if u1 == u2 {
          RestInjective(t1, t2);
        }
        RestAscending(t1, k);
        RestAscending(t2, k);
        ProductOrthogonal(k - 1, u1, u2);
        assert SignDot(Product(k - 1), u1, u2) == 0;
      } else {
        assert Lead(-1, t1) * Lead(-1, t2) + Lead(1, t1) * Lead(1, t2) == 0;
      }
    }
  }

  lemma {:induction false} SignSquare(row: seq<int>, t: Term)
    requires IsLevelVector(row)
    ensures Sign(row, t) * Sign(row, t) == 1
  {
    if t != [] {
      SignSquare(row, t[1..]);
      var x, s := if t[0] < |row| then row[t[0]] else 1, Sign(row, t[1..]);
      assert x * x == 1;
      assert (x * s) * (x * s) == (x * x) * (s * s);
    }
  }

  lemma {:induction false} SignDotSelf(rows: seq<seq<int>>, t: Term)
    requires forall i :: 0 <= i < |rows| ==> IsLevelVector(rows[i])
    ensures SignDot(rows, t, t) == |rows|
  {
    if rows != [] {
      SignSquare(rows[0], t);
      SignDotSelf(rows[1..], t);
    }
  }

  lemma {:induction false} ColumnDot(rows: seq<seq<int>>, t1: Term, t2: Term)
    ensures IntDot(ColumnOf(rows, t1), ColumnOf(rows, t2)) == SignDot(rows, t1, t2)
  {
    if rows != [] {
      assert ColumnOf(rows, t1)[1..] == ColumnOf(rows[1..], t1);
      assert ColumnOf(rows, t2)[1..] == ColumnOf(rows[1..], t2);
      ColumnDot(rows[1..], t1, t2);
    }
  }

  /** Every column has n entries, each column dotted with itself gives n and
      two different columns are orthogonal. */
  predicate Orthogonal(cols: seq<seq<int>>, n: nat)
  {
    (forall c :: 0 <= c < |cols| ==> |cols[c]| == n) &&
    (forall c, d {:trigger IntDot(cols[c], cols[d])} :: 0 <= c < |cols| && 0 <= d < |cols| ==>
       IntDot(cols[c], cols[d]) == if c == d then n else 0)
  }

  /** The columns of the sign table are pairwise orthogonal over the 2^k runs,
      the column I included. */
  lemma TableOrthogonal(k: nat)
    ensures Orthogonal(Columns(k), Pow2(k))
  {
    var terms, cols := Terms(k), Columns(k);
    TermsDistinct(k);
    forall i | 0 <= i < Pow2(k) ensures IsLevelVector(Product(k)[i]) {
      ProductLevels(k, i);
    }
    forall c, d | 0 <= c < |cols| && 0 <= d < |cols|
      ensures IntDot(cols[c], cols[d]) == if c == d then Pow2(k) else 0
    {
      ColumnDot(Product(k), terms[c], terms[d]);
      if c == d {
        SignDotSelf(Product(k), terms[c]);
      } else {
        assert terms[c] in terms && terms[d] in terms;
        TermsMembers(k, terms[c]);
        TermsMembers(k, terms[d]);
        if c < d {
          assert terms[c] != terms[d];
        } else {
          assert terms[d] != terms[c];
        }
        ProductOrthogonal(k, terms[c], terms[d]);
      }
    }
  }

  lemma {:induction false} IntDotOnes(u: seq<int>, v: seq<int>)
    requires |u| == |v| && forall i :: 0 <= i < |u| ==> u[i] == 1
    ensures IntDot(u, v) == IntSum(v)
  {
    if u != [] {
      IntDotOnes(u[1..], v[1..]);
    }
  }

  /** Balance: every column but I sums to zero over the runs. */
  lemma TableBalanced(k: nat, c: nat)
    requires 0 < c < |Terms(k)|
    ensures IntSum(Columns(k)[c]) == 0
  {
    TableOrthogonal(k);
    var cols := Columns(k);
    assert Terms(k)[0] == [];
    IntDotOnes(cols[0], cols[c]);
  }

  /** The first column is I, one in every run. */
  lemma ColumnIOnes(k: nat)
    ensures |Terms(k)| > 0 && Terms(k)[0] == []
    ensures |Columns(k)[0]| == Pow2(k) && forall i :: 0 <= i < Pow2(k) ==> Columns(k)[0][i] == 1
  {
    assert Terms(k)[0] == [];
  }

  // ----- building the table -----

  lemma SignOfPair(row: seq<int>, i: nat, j: nat)
    ensures Sign(row, [i, j]) == Sign(row, [i]) * Sign(row, [j])
  {
    assert [i, j][1..] == [j];
  }

  lemma SignOfTriple(row: seq<int>, i: nat, j: nat, l: nat)
    ensures Sign(row, [i, j, l]) == Sign(row, [i]) * Sign(row, [j]) * Sign(row, [l])
  {
    assert [i, j, l][1..] == [j, l];
    SignOfPair(row, j, l);
  }

  /** The column of each of terms, in the same order. */
  function ColumnsOf(k: nat, terms: seq<Term>): seq<seq<int>>
  {
    seq(|terms|, c requires 0 <= c < |terms| => Column(k, terms[c]))
  }

  lemma ColumnsOfAppend(k: nat, terms: seq<Term>, t: Term)
    ensures ColumnsOf(k, terms + [t]) == ColumnsOf(k, terms) + [Column(k, t)]
  {
  }

  /** I and then the factors F1 .. Fk lead the list of terms. */
  predicate FactorsLead(k: nat, terms: seq<Term>)
  {
    |terms| > k && terms[..k + 1] == [[]] + MainTerms(k)
  }

  lemma FactorsLeadAppend(k: nat, terms: seq<Term>, more: seq<Term>)
    requires FactorsLead(k, terms)
    ensures FactorsLead(k, terms + more)
  {
    assert (terms + more)[..k + 1] == terms[..k + 1];
  }

  lemma FactorColumnAt(k: nat, terms: seq<Term>, f: nat)
    requires FactorsLead(k, terms) && f < k
    ensures ColumnsOf(k, terms)[1 + f] == Column(k, [f])
  {
    assert terms[1 + f] == terms[..k + 1][1 + f];
  }

  /** The table the runs give before any interaction is added: I, then the
      factor columns. */
  method FactorColumns(k: nat) returns (terms: seq<Term>, cols: seq<seq<int>>)
    ensures terms == [[]] + MainTerms(k) && FactorsLead(k, terms)
    ensures cols == ColumnsOf(k, terms)
  {
    var rows := Product(k);
    var n := |rows|;
    terms := [[]] + MainTerms(k);
    assert terms[..k + 1] == terms;
    cols := [seq(n, _ => 1)] + seq(k, f requires 0 <= f < k => seq(n, i requires 0 <= i < n => rows[i][f]));
    forall c | 0 <= c < |cols| ensures cols[c] == Column(k, terms[c]) {
      var t := terms[c];
      if c > 0 {
        assert t == [c - 1] && t[1..] == [];
      }
      assert forall r :: 0 <= r < n ==> cols[c][r] == Sign(rows[r], t);
    }
  }

  lemma PairColumn(k: nat, i: nat, j: nat, col: seq<int>)
    requires |col| == Pow2(k)
    requires forall r :: 0 <= r < |col| ==> col[r] == Column(k, [i])[r] * Column(k, [j])[r]
    ensures col == Column(k, [i, j])
  {
    forall r | 0 <= r < |col| ensures col[r] == Column(k, [i, j])[r] {
      SignOfPair(Product(k)[r], i, j);
    }
  }

  lemma TripleColumn(k: nat, i: nat, j: nat, l: nat, col: seq<int>)
    requires |col| == Pow2(k)
    requires forall r :: 0 <= r < |col| ==> col[r] == Column(k, [i])[r] * Column(k, [j])[r] * Column(k, [l])[r]
    ensures col == Column(k, [i, j, l])
  {
    forall r | 0 <= r < |col| ensures col[r] == Column(k, [i, j, l])[r] {
      SignOfTriple(Product(k)[r], i, j, l);
    }
  }

  /** Appends the columns FiFj, j = i+1 .. k-1 (the program's inner pair loop). */
  method AddPairsOf(k: nat, i: nat, terms0: seq<Term>, cols0: seq<seq<int>>)
    returns (terms: seq<Term>, cols: seq<seq<int>>)
    requires i < k && FactorsLead(k, terms0) && cols0 == ColumnsOf(k, terms0)
    ensures terms == terms0 + PairBlock(i, k)
    ensures cols == ColumnsOf(k, terms)
  {
    terms, cols := terms0, cols0;
    var n := Pow2(k);
    FactorColumnAt(k, terms0, i);
    var fi := cols[1 + i];
    for j := i + 1 to k
      invariant terms == terms0 + PairBlock(i, k)[..j - i - 1]
      invariant cols == ColumnsOf(k, terms)
    {
      FactorsLeadAppend(k, terms0, PairBlock(i, k)[..j - i - 1]);
      FactorColumnAt(k, terms, j);
      var fj := cols[1 + j];
      var col := seq(n, r requires 0 <= r < n => fi[r] * fj[r]);
      PairColumn(k, i, j, col);
      assert PairBlock(i, k)[j - i - 1] == [i, j];
      assert PairBlock(i, k)[..j - i - 1] + [[i, j]] == PairBlock(i, k)[..j - i];
      ColumnsOfAppend(k, terms, [i, j]);
      terms := terms + [[i, j]];
      cols := cols + [col];
    }
    assert PairBlock(i, k)[..k - i - 1] == PairBlock(i, k);
  }

  /** Appends the columns FiFjFl, l = j+1 .. k-1 (the program's innermost triple loop). */
  method AddTriplesOf(k: nat, i: nat, j: nat, terms0: seq<Term>, cols0: seq<seq<int>>)
    returns (terms: seq<Term>, cols: seq<seq<int>>)
    requires i < j < k && FactorsLead(k, terms0) && cols0 == ColumnsOf(k, terms0)
    ensures terms == terms0 + TripleBlock(i, j, k)
    ensures cols == ColumnsOf(k, terms)
  {
    terms, cols := terms0, cols0;
    var n := Pow2(k);
    FactorColumnAt(k, terms0, i);
    FactorColumnAt(k, terms0, j);
    var fi, fj := cols[1 + i], cols[1 + j];
    for l := j + 1 to k
      invariant terms == terms0 + TripleBlock(i, j, k)[..l - j - 1]
      invariant cols == ColumnsOf(k, terms)
    {
      FactorsLeadAppend(k, terms0, TripleBlock(i, j, k)[..l - j - 1]);
      FactorColumnAt(k, terms, l);
      var fl := cols[1 + l];
      var col := seq(n, r requires 0 <= r < n => fi[r] * fj[r] * fl[r]);
      TripleColumn(k, i, j, l, col);
      assert TripleBlock(i, j, k)[l - j - 1] == [i, j, l];
      assert TripleBlock(i, j, k)[..l - j - 1] + [[i, j, l]] == TripleBlock(i, j, k)[..l - j];
      ColumnsOfAppend(k, terms, [i, j, l]);
      terms := terms + [[i, j, l]];
      cols := cols + [col];
    }
    assert TripleBlock(i, j, k)[..k - j - 1] == TripleBlock(i, j, k);
  }

  /** The columns present once the pair loop has finished the first factors below i. */
  function TermsWithPairsBelow(k: nat, i: nat): seq<Term>
  {
    [[]] + MainTerms(k) + PairsBelow(i, k)
  }

  /** The columns present once the triple loops have finished the first factors below i
      and, for first factor i, the second factors below j. */
  function TermsWithTriplesBelow(k: nat, i: nat, j: nat): seq<Term>
  {
    BaseTerms(k) + TriplesBelow(i, k) + TriplesOfBelow(i, j, k)
  }

  lemma PairsStep(k: nat, i: nat)
    ensures TermsWithPairsBelow(k, i) + PairBlock(i, k) == TermsWithPairsBelow(k, i + 1)
  {
  }

  lemma TriplesStep(k: nat, i: nat, j: nat)
    requires i < j
    ensures TermsWithTriplesBelow(k, i, j) + TripleBlock(i, j, k) == TermsWithTriplesBelow(k, i, j + 1)
  {
  }

  lemma TriplesOuterStep(k: nat, i: nat)
    ensures TermsWithTriplesBelow(k, i, k) == TermsWithTriplesBelow(k, i + 1, i + 2)
  {
  }

  lemma FactorsLeadPairs(k: nat, i: nat)
    ensures FactorsLead(k, TermsWithPairsBelow(k, i))
  {
    var lead := [[]] + MainTerms(k);
    assert lead[..k + 1] == lead;
    FactorsLeadAppend(k, lead, PairsBelow(i, k));
  }

  lemma FactorsLeadTriples(k: nat, i: nat, j: nat)
    ensures FactorsLead(k, TermsWithTriplesBelow(k, i, j))
  {
    FactorsLeadPairs(k, k);
    FactorsLeadAppend(k, BaseTerms(k), TriplesBelow(i, k));
    FactorsLeadAppend(k, BaseTerms(k) + TriplesBelow(i, k), TriplesOfBelow(i, j, k));
  }

  /** The pairwise-interaction loops: FiFj for every i < j, in loop order. */
  method AddPairColumns(k: nat, terms0: seq<Term>, cols0: seq<seq<int>>)
    returns (terms: seq<Term>, cols: seq<seq<int>>)
    requires terms0 == TermsWithPairsBelow(k, 0) && cols0 == ColumnsOf(k, terms0)
    ensures terms == TermsWithPairsBelow(k, k)
    ensures cols == ColumnsOf(k, terms)
  {
    terms, cols := terms0, cols0;
    for i := 0 to k
      invariant terms == TermsWithPairsBelow(k, i)
      invariant cols == ColumnsOf(k, terms)
    {
      FactorsLeadPairs(k, i);
      terms, cols := AddPairsOf(k, i, terms, cols);
      PairsStep(k, i);
    }
  }

  /** The middle triple loop for first factor i: FiFjFl for every i < j < l. */
  method AddTriplesFrom(k: nat, i: nat, terms0: seq<Term>, cols0: seq<seq<int>>)
    returns (terms: seq<Term>, cols: seq<seq<int>>)
    requires i < k && terms0 == TermsWithTriplesBelow(k, i, i + 1) && cols0 == ColumnsOf(k, terms0)
    ensures terms == TermsWithTriplesBelow(k, i + 1, i + 2)
    ensures cols == ColumnsOf(k, terms)
  {
    terms, cols := terms0, cols0;
    for j := i + 1 to k
      invariant terms == TermsWithTriplesBelow(k, i, j)
      invariant cols == ColumnsOf(k, terms)
    {
      FactorsLeadTriples(k, i, j);
      terms, cols := AddTriplesOf(k, i, j, terms, cols);
      TriplesStep(k, i, j);
    }
    TriplesOuterStep(k, i);
  }

  /** The triple-interaction loops: FiFjFl for every i < j < l, in loop order. */
  method AddTripleColumns(k: nat, terms0: seq<Term>, cols0: seq<seq<int>>)
    returns (terms: seq<Term>, cols: seq<seq<int>>)
    requires terms0 == TermsWithTriplesBelow(k, 0, 1) && cols0 == ColumnsOf(k, terms0)
    ensures terms == TermsWithTriplesBelow(k, k, k + 1)
    ensures cols == ColumnsOf(k, terms)
  {
    terms, cols := terms0, cols0;
    for i := 0 to k
      invariant terms == TermsWithTriplesBelow(k, i, i + 1)
      invariant cols == ColumnsOf(k, terms)
    {
      terms, cols := AddTriplesFrom(k, i, terms, cols);
    }
  }

  /** Builds the sign table as the program does: the runs, the column I put
      in front of the factor columns, then every interaction column as the
      product of its factor columns, pairs first and, when k >= 3, triples. */
  method GenerateTable(k: nat) returns (terms: seq<Term>, cols: seq<seq<int>>)
    ensures terms == Terms(k)
    ensures cols == Columns(k)
  {
    terms, cols := FactorColumns(k);
    assert terms == TermsWithPairsBelow(k, 0);
    terms, cols := AddPairColumns(k, terms, cols);
    assert terms == BaseTerms(k);
    if k >= 3 {
      assert terms == TermsWithTriplesBelow(k, 0, 1);
      terms, cols := AddTripleColumns(k, terms, cols);
      assert terms == BaseTerms(k) + TriplesBelow(k, k);
    } else {
      assert terms == BaseTerms(k) + [];
    }
  }
}
