/** Sums, dot products and sums of squares over sequences of reals, with the
    algebra the analysis of variance rests on. */
module RealSums {
  /** The sum of the entries of v. */
  function Sum(v: seq<real>): real
  {
    if v == [] then 0.0 else v[0] + Sum(v[1..])
  }

  /** The dot product of two vectors of the same length. */
  function Dot(u: seq<real>, v: seq<real>): real
    requires |u| == |v|
  {
    if u == [] then 0.0 else u[0] * v[0] + Dot(u[1..], v[1..])
  }

  /** The sum of the squared entries of v. */
  function SumSq(v: seq<real>): real
  {
    if v == [] then 0.0 else v[0] * v[0] + SumSq(v[1..])
  }

  /** The sum of the squared deviations of the entries of v from a. */
  function SumSqDev(v: seq<real>, a: real): real
  {
    if v == [] then 0.0 else (v[0] - a) * (v[0] - a) + SumSqDev(v[1..], a)
  }

  /** The squared Euclidean distance between u and v. */
  function SqDist(u: seq<real>, v: seq<real>): real
    requires |u| == |v|
  {
    if u == [] then 0.0 else (u[0] - v[0]) * (u[0] - v[0]) + SqDist(u[1..], v[1..])
  }

  /** The vector of n copies of a. */
  function Const(n: nat, a: real): seq<real>
  {
    seq(n, _ => a)
  }

  /** The rows laid end to end, in order. */
  function Flatten(rows: seq<seq<real>>): seq<real>
  {
    if rows == [] then [] else rows[0] + Flatten(rows[1..])
  }

  lemma {:induction false} SumAppend(u: seq<real>, v: seq<real>)
    ensures Sum(u + v) == Sum(u) + Sum(v)
  {
    if u == [] {
      assert u + v == v;
    } else {
      assert (u + v)[0] == u[0] && (u + v)[1..] == u[1..] + v;
      SumAppend(u[1..], v);
    }
  }

  lemma {:induction false} SumSnoc(v: seq<real>, x: real)
    ensures Sum(v + [x]) == Sum(v) + x
  {
    SumAppend(v, [x]);
    assert Sum([x]) == x + Sum([]);
  }

  lemma {:induction false} SumSqAppend(u: seq<real>, v: seq<real>)
    ensures SumSq(u + v) == SumSq(u) + SumSq(v)
  {
    if u == [] {
      assert u + v == v;
    } else {
      assert (u + v)[0] == u[0] && (u + v)[1..] == u[1..] + v;
      SumSqAppend(u[1..], v);
    }
  }

  lemma {:induction false} SumSqDevAppend(u: seq<real>, v: seq<real>, a: real)
    ensures SumSqDev(u + v, a) == SumSqDev(u, a) + SumSqDev(v, a)
  {
    if u == [] {
      assert u + v == v;
    } else {
      assert (u + v)[0] == u[0] && (u + v)[1..] == u[1..] + v;
      SumSqDevAppend(u[1..], v, a);
    }
  }

  /** w is v scaled by a, entry by entry. */
  predicate Scaled(w: seq<real>, a: real, v: seq<real>)
  {
    |w| == |v| && forall i {:trigger w[i]} :: 0 <= i < |v| ==> w[i] == a * v[i]
  }

  /** Scaling every entry scales the sum. */
  lemma {:induction false} SumScale(v: seq<real>, a: real, w: seq<real>)
    requires Scaled(w, a, v)
    ensures Sum(w) == a * Sum(v)
  {
    if v != [] {
      assert Scaled(w[1..], a, v[1..]) by {
        forall i | 0 <= i < |v| - 1 ensures w[1..][i] == a * v[1..][i] {
          assert w[1..][i] == w[i + 1];
        }
      }
      SumScale(v[1..], a, w[1..]);
    }
  }

  /** u is v plus c times w, entry by entry. */
  predicate Affine(u: seq<real>, v: seq<real>, c: real, w: seq<real>)
  {
    |u| == |v| == |w| && forall i {:trigger u[i]} :: 0 <= i < |u| ==> u[i] == v[i] + c * w[i]
  }

  /** Sums respect entrywise affine combinations. */
  lemma {:induction false} SumCombine(u: seq<real>, v: seq<real>, c: real, w: seq<real>)
    requires Affine(u, v, c, w)
    ensures Sum(u) == Sum(v) + c * Sum(w)
  {
    if u != [] {
      assert Affine(u[1..], v[1..], c, w[1..]) by {
        forall i | 0 <= i < |u| - 1 ensures u[1..][i] == v[1..][i] + c * w[1..][i] {
          assert u[1..][i] == u[i + 1];
        }
      }
      SumCombine(u[1..], v[1..], c, w[1..]);
    }
  }

  /** The squared differences of u and v, entry by entry. */
  function Gaps(u: seq<real>, v: seq<real>): (d: seq<real>)
    requires |u| == |v|
    ensures |d| == |u|
  {
    seq(|u|, i requires 0 <= i < |u| => (u[i] - v[i]) * (u[i] - v[i]))
  }

  /** The squared distance is the sum of the squared differences. */
  lemma {:induction false} SqDistGaps(u: seq<real>, v: seq<real>)
    requires |u| == |v|
    ensures SqDist(u, v) == Sum(Gaps(u, v))
  {
    if u != [] {
      var g, t, w := Gaps(u, v), u[1..], v[1..];
      forall i | 0 <= i < |t| ensures g[1..][i] == Gaps(t, w)[i] {
        assert t[i] == u[i + 1] && w[i] == v[i + 1];
      }
      assert g[1..] == Gaps(t, w);
      SqDistGaps(u[1..], v[1..]);
      assert g[0] == (u[0] - v[0]) * (u[0] - v[0]);
    }
  }

  /** Shifting every entry by -a lowers the sum by |v| * a. */
  lemma {:induction false} SumShift(v: seq<real>, a: real, w: seq<real>)
    requires |w| == |v| && forall i :: 0 <= i < |v| ==> w[i] == v[i] - a
    ensures Sum(w) == Sum(v) - |v| as real * a
  {
    if v != [] {
      SumShift(v[1..], a, w[1..]);
    }
  }

  /** The shifted vector's sum of squares is the sum of squared deviations from a. */
  lemma {:induction false} SumSqShift(v: seq<real>, a: real, w: seq<real>)
    requires |w| == |v| && forall i :: 0 <= i < |v| ==> w[i] == v[i] - a
    ensures SumSq(w) == SumSqDev(v, a)
  {
    if v != [] {
      SumSqShift(v[1..], a, w[1..]);
    }
  }

  lemma {:induction false} SumNonNegative(v: seq<real>)
    requires forall i :: 0 <= i < |v| ==> v[i] >= 0.0
    ensures Sum(v) >= 0.0
  {
    if v != [] {
      SumNonNegative(v[1..]);
    }
  }

  /** Every entry of a vector without negative entries is at most its sum. */
  lemma {:induction false} EntryAtMostSum(v: seq<real>, c: nat)
    requires forall i :: 0 <= i < |v| ==> v[i] >= 0.0
    requires c < |v|
    ensures v[c] <= Sum(v)
  {
    if c == 0 {
      SumNonNegative(v[1..]);
    } else {
      EntryAtMostSum(v[1..], c - 1);
    }
  }

  /** Entries between lo and hi give a sum between |v| * lo and |v| * hi. */
  lemma {:induction false} SumBetween(v: seq<real>, lo: real, hi: real)
    requires forall i :: 0 <= i < |v| ==> lo <= v[i] <= hi
    ensures |v| as real * lo <= Sum(v) <= |v| as real * hi
  {
    if v != [] {
      SumBetween(v[1..], lo, hi);
    }
  }

  lemma {:induction false} SumSqNonNegative(v: seq<real>)
    ensures SumSq(v) >= 0.0
  {
    if v != [] {
      SumSqNonNegative(v[1..]);
    }
  }

  lemma {:induction false} SquareNonNegative(d: real)
    ensures d * d >= 0.0
  {
    if d < 0.0 {
      assert d * d == (-d) * (-d);
    }
  }

  lemma {:induction false} SumSqDevNonNegative(v: seq<real>, a: real)
    ensures SumSqDev(v, a) >= 0.0
  {
    if v != [] {
      SumSqDevNonNegative(v[1..], a);
      SquareNonNegative(v[0] - a);
    }
  }

  lemma {:induction false} DotSymmetric(u: seq<real>, v: seq<real>)
    requires |u| == |v|
    ensures Dot(u, v) == Dot(v, u)
  {
    if u != [] {
      DotSymmetric(u[1..], v[1..]);
    }
  }

  /** Against a vector of ones the dot product is the plain sum. */
  lemma {:induction false} DotOnes(u: seq<real>, v: seq<real>)
    requires |u| == |v| && forall i :: 0 <= i < |u| ==> u[i] == 1.0
    ensures Dot(u, v) == Sum(v)
  {
    if u != [] {
      DotOnes(u[1..], v[1..]);
    }
  }

  lemma {:induction false} AddScaledStep(x0: real, v0: real, w0: real, a: real, u0: real, dv: real, dw: real)
    requires x0 == v0 + a * w0
    ensures x0 * u0 + (dv + a * dw) == (v0 * u0 + dv) + a * (w0 * u0 + dw)
  {
  }

  /** The dot product is linear in its first argument: x = v + a w gives
      Dot(x, u) = Dot(v, u) + a Dot(w, u). */
  lemma {:induction false} DotAddScaled(x: seq<real>, v: seq<real>, a: real, w: seq<real>, u: seq<real>)
    requires |x| == |v| == |w| == |u|
    requires forall i :: 0 <= i < |x| ==> x[i] == v[i] + a * w[i]
    ensures Dot(x, u) == Dot(v, u) + a * Dot(w, u)
  {
    if x != [] {
      DotAddScaled(x[1..], v[1..], a, w[1..], u[1..]);
      AddScaledStep(x[0], v[0], w[0], a, u[0], Dot(v[1..], u[1..]), Dot(w[1..], u[1..]));
    }
  }

  lemma {:induction false} ExpandStep(a: real, b: real, duu: real, duv: real, dvv: real)
    ensures (a - b) * (a - b) + (duu - 2.0 * duv + dvv)
         == (a * a + duu) - 2.0 * (a * b + duv) + (b * b + dvv)
  {
  }

  /** |u - v|^2 = u.u - 2 u.v + v.v */
  lemma {:induction false} SqDistExpand(u: seq<real>, v: seq<real>)
    requires |u| == |v|
    ensures SqDist(u, v) == Dot(u, u) - 2.0 * Dot(u, v) + Dot(v, v)
  {
    if u != [] {
      SqDistExpand(u[1..], v[1..]);
      ExpandStep(u[0], v[0], Dot(u[1..], u[1..]), Dot(u[1..], v[1..]), Dot(v[1..], v[1..]));
    }
  }

  lemma {:induction false} DevStep(x: real, a: real, dev: real, sq: real, s: real, n: real, sq1: real, s1: real, n1: real)
    requires dev == sq - 2.0 * a * s + n * a * a
    requires sq1 == x * x + sq && s1 == x + s && n1 == n + 1.0
    ensures (x - a) * (x - a) + dev == sq1 - 2.0 * a * s1 + n1 * a * a
  {
  }

  /** The squared deviations from a, written with the sum and the sum of squares. */
  lemma {:induction false} SumSqDevExpand(v: seq<real>, a: real)
    ensures SumSqDev(v, a) == SumSq(v) - 2.0 * a * Sum(v) + |v| as real * a * a
  {
    if v != [] {
      var t := v[1..];
      SumSqDevExpand(t, a);
      var x, dev, sq, s, n := v[0], SumSqDev(t, a), SumSq(t), Sum(t), |t| as real;
      assert SumSq(v) == x * x + sq;
      assert Sum(v) == x + s;
      assert |v| as real == n + 1.0;
      DevStep(x, a, dev, sq, s, n, SumSq(v), Sum(v), |v| as real);
    }
  }

  lemma {:induction false} SplitIdentity(sq: real, s: real, n: real, mu: real, a: real)
    requires mu * n == s
    ensures sq - 2.0 * a * s + n * a * a
         == (sq - 2.0 * mu * s + n * mu * mu) + n * ((mu - a) * (mu - a))
  {
    calc {
      (sq - 2.0 * mu * s + n * mu * mu) + n * ((mu - a) * (mu - a));
      sq - 2.0 * mu * s + n * mu * mu + n * mu * mu - 2.0 * a * (n * mu) + n * a * a;
      { assert n * mu == s; }
      sq - 2.0 * mu * s + mu * s + mu * s - 2.0 * a * s + n * a * a;
    }
  }

  /** The squared deviations of v from any point a exceed those from the mean
      mu of v by |v| times the squared distance between a and mu. */
  lemma {:induction false} SumSqDevSplit(v: seq<real>, a: real, mu: real)
    requires |v| > 0 && mu * |v| as real == Sum(v)
    ensures SumSqDev(v, a) == SumSqDev(v, mu) + |v| as real * ((mu - a) * (mu - a))
  {
    SumSqDevExpand(v, a);
    SumSqDevExpand(v, mu);
    SplitIdentity(SumSq(v), Sum(v), |v| as real, mu, a);
  }

  /** Converting a product of naturals to a real multiplies the conversions. */
  lemma {:induction false} RealOfProduct(a: nat, b: nat)
    ensures (a * b) as real == a as real * b as real
  {
    if a > 0 {
      RealOfProduct(a - 1, b);
      assert a * b == (a - 1) * b + b;
    }
  }
}
