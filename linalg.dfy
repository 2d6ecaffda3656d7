/**
 * Exact real arithmetic on vectors and matrices: the sums, dot products and
 * quadratic forms that both front ends compute, and the facts relating them.
 * Every sum runs over a prefix `0 .. k-1`, so that a loop accumulating it
 * from left to right can name its partial result.
 */
module LinAlg {

  /** s[0] + ... + s[k-1] */
  function SumTo(s: seq<real>, k: nat): real
    requires k <= |s|
  {
    if k == 0 then 0.0 else SumTo(s, k - 1) + s[k - 1]
  }

  function Sum(s: seq<real>): real
  {
    SumTo(s, |s|)
  }

  /** u[0]*v[0] + ... + u[k-1]*v[k-1] */
  function DotTo(u: seq<real>, v: seq<real>, k: nat): real
    requires k <= |u| && k <= |v|
  {
    if k == 0 then 0.0 else DotTo(u, v, k - 1) + u[k - 1] * v[k - 1]
  }

  function Dot(u: seq<real>, v: seq<real>): real
    requires |u| == |v|
  {
    DotTo(u, v, |u|)
  }

  predicate IsSquare(m: seq<seq<real>>, n: nat)
  {
    |m| == n && forall i :: 0 <= i < n ==> |m[i]| == n
  }

  /** Row i of the quadratic form, first k columns: sum over j < k of w_i w_j C[i][j]. */
  function RowTo(w: seq<real>, c: seq<seq<real>>, i: nat, k: nat): real
    requires IsSquare(c, |w|) && i < |w| && k <= |w|
  {
    if k == 0 then 0.0 else RowTo(w, c, i, k - 1) + w[i] * w[k - 1] * c[i][k - 1]
  }

  /** The first a rows and b columns of the quadratic form. */
  function QuadTo(w: seq<real>, c: seq<seq<real>>, a: nat, b: nat): real
    requires IsSquare(c, |w|) && a <= |w| && b <= |w|
  {
    if a == 0 then 0.0 else QuadTo(w, c, a - 1, b) + RowTo(w, c, a - 1, b)
  }

  /** The quadratic form w^T C w, written as the double sum over i and j. */
  function Quad(w: seq<real>, c: seq<seq<real>>): real
    requires IsSquare(c, |w|)
  {
    QuadTo(w, c, |w|, |w|)
  }

  /** C is positive semidefinite: w^T C w >= 0 for every w of the right length. */
  ghost predicate PositiveSemidefinite(c: seq<seq<real>>, n: nat)
  {
    IsSquare(c, n) && forall w: seq<real> :: |w| == n ==> 0.0 <= Quad(w, c)
  }

  /** Column j of the row vector w^T C, first k rows: sum over i < k of w_i C[i][j]. */
  function ColTo(w: seq<real>, c: seq<seq<real>>, j: nat, k: nat): real
    requires IsSquare(c, |w|) && j < |w| && k <= |w|
  {
    if k == 0 then 0.0 else ColTo(w, c, j, k - 1) + w[k - 1] * c[k - 1][j]
  }

  /** The row vector w^T C. */
  function VecMat(w: seq<real>, c: seq<seq<real>>): (r: seq<real>)
    requires IsSquare(c, |w|)
    ensures |r| == |w|
    ensures forall j :: 0 <= j < |w| ==> r[j] == ColTo(w, c, j, |w|)
  {
    seq(|w|, j requires 0 <= j < |w| => ColTo(w, c, j, |w|))
  }

  lemma {:induction false} QuadToNoColumns(w: seq<real>, c: seq<seq<real>>, a: nat)
    requires IsSquare(c, |w|) && a <= |w|
    ensures QuadTo(w, c, a, 0) == 0.0
  {
    if a > 0 {
      QuadToNoColumns(w, c, a - 1);
    }
  }

  /** Widening the double sum by one column adds column b of w^T C, times w_b. */
  lemma {:induction false} QuadToAddColumn(w: seq<real>, c: seq<seq<real>>, a: nat, b: nat)
    requires IsSquare(c, |w|) && a <= |w| && b < |w|
    ensures QuadTo(w, c, a, b + 1) == QuadTo(w, c, a, b) + ColTo(w, c, b, a) * w[b]
  {
    if a > 0 {
      QuadToAddColumn(w, c, a - 1, b);
      var i := a - 1;
      calc {
        ColTo(w, c, b, a) * w[b];
        (ColTo(w, c, b, i) + w[i] * c[i][b]) * w[b];
        ColTo(w, c, b, i) * w[b] + w[i] * w[b] * c[i][b];
      }
    }
  }

  lemma {:induction false} QuadToColumns(w: seq<real>, c: seq<seq<real>>, b: nat)
    requires IsSquare(c, |w|) && b <= |w|
    ensures QuadTo(w, c, |w|, b) == DotTo(VecMat(w, c), w, b)
  {
    if b == 0 {
      QuadToNoColumns(w, c, |w|);
    } else {
      QuadToColumns(w, c, b - 1);
      QuadToAddColumn(w, c, |w|, b - 1);
    }
  }

  /**
   * (w^T C) . w, the product the simulator forms with a matrix library,
   * equals the double sum over i and j of w_i w_j C[i][j] that the
   * optimiser page accumulates.
   */
  lemma VecMatDotIsQuad(w: seq<real>, c: seq<seq<real>>)
    requires IsSquare(c, |w|)
    ensures Dot(VecMat(w, c), w) == Quad(w, c)
  {
    QuadToColumns(w, c, |w|);
  }

  /** A non-negative combination of values bounded above by hi is at most hi times the total weight. */
  lemma {:induction false} DotToAtMost(w: seq<real>, mu: seq<real>, hi: real, k: nat)
    requires |w| == |mu| && k <= |w|
    requires forall i :: 0 <= i < |w| ==> 0.0 <= w[i] && mu[i] <= hi
    ensures DotTo(w, mu, k) <= hi * SumTo(w, k)
  {
    if k > 0 {
      DotToAtMost(w, mu, hi, k - 1);
      ScaleMonotone(w[k - 1], mu[k - 1], hi);
      ScaleDistributes(hi, SumTo(w, k - 1), w[k - 1]);
    }
  }

  lemma ScaleMonotone(a: real, x: real, y: real)
    requires 0.0 <= a && x <= y
    ensures a * x <= a * y
  {
  }

  lemma ScaleDistributes(c: real, x: real, y: real)
    ensures c * (x + y) == c * x + y * c
  {
  }

  /** A non-negative combination of values bounded below by lo is at least lo times the total weight. */
  lemma {:induction false} DotToAtLeast(w: seq<real>, mu: seq<real>, lo: real, k: nat)
    requires |w| == |mu| && k <= |w|
    requires forall i :: 0 <= i < |w| ==> 0.0 <= w[i] && lo <= mu[i]
    ensures lo * SumTo(w, k) <= DotTo(w, mu, k)
  {
    if k > 0 {
      DotToAtLeast(w, mu, lo, k - 1);
      ScaleMonotone(w[k - 1], lo, mu[k - 1]);
      ScaleDistributes(lo, SumTo(w, k - 1), w[k - 1]);
    }
  }

  /** A convex combination of values lies between their lower and upper bounds. */
  lemma ConvexCombinationBounds(w: seq<real>, mu: seq<real>, lo: real, hi: real)
    requires |w| == |mu|
    requires forall i :: 0 <= i < |w| ==> 0.0 <= w[i] && lo <= mu[i] <= hi
    requires Sum(w) == 1.0
    ensures lo <= Dot(w, mu) <= hi
  {
    DotToAtMost(w, mu, hi, |w|);
    DotToAtLeast(w, mu, lo, |w|);
  }

  /** Dividing every entry by t divides the sum by t. */
  lemma {:induction false} SumToDivided(s: seq<real>, d: seq<real>, t: real, k: nat)
    requires |s| == |d| && k <= |s| && t != 0.0
    requires forall i :: 0 <= i < |s| ==> d[i] == s[i] / t
    ensures SumTo(d, k) == SumTo(s, k) / t
  {
    if k > 0 {
      SumToDivided(s, d, t, k - 1);
    }
  }

  lemma {:induction false} SumToNonNegative(s: seq<real>, k: nat)
    requires k <= |s|
    requires forall i :: 0 <= i < |s| ==> 0.0 <= s[i]
    ensures 0.0 <= SumTo(s, k)
  {
    if k > 0 {
      SumToNonNegative(s, k - 1);
    }
  }

  /** The largest entry, as JavaScript's Math.max(...s) for a non-empty s. */
  function MaxOf(s: seq<real>): (r: real)
    requires |s| > 0
    ensures forall i :: 0 <= i < |s| ==> s[i] <= r
    ensures exists i :: 0 <= i < |s| && s[i] == r
  {
    if |s| == 1 then s[0]
    else
      var m := MaxOf(s[..|s| - 1]);
      assert forall i :: 0 <= i < |s| - 1 ==> s[..|s| - 1][i] == s[i];
      if s[|s| - 1] > m then s[|s| - 1] else m
  }

  /** The smallest entry, as JavaScript's Math.min(...s) for a non-empty s. */
  function MinOf(s: seq<real>): (r: real)
    requires |s| > 0
    ensures forall i :: 0 <= i < |s| ==> r <= s[i]
    ensures exists i :: 0 <= i < |s| && s[i] == r
  {
    if |s| == 1 then s[0]
    else
      var m := MinOf(s[..|s| - 1]);
      assert forall i :: 0 <= i < |s| - 1 ==> s[..|s| - 1][i] == s[i];
      if s[|s| - 1] < m then s[|s| - 1] else m
  }

  /**
   * The sum of m's values at the given keys. Summing a JavaScript object's
   * values (Object.values(...).reduce((a, b) => a + b, 0)) is the sum at all
   * of its keys; over the reals the order of summation does not matter.
   */
  ghost function KeySum<K>(m: map<K, real>, keys: set<K>): real
    requires keys <= m.Keys
  {
    if keys == {} then 0.0
    else
      var k :| k in keys;
      m[k] + KeySum(m, keys - {k})
  }

  ghost function MapSum<K>(m: map<K, real>): real
  {
    KeySum(m, m.Keys)
  }

  /** Taking any one key out first gives the same sum. */
  lemma {:induction false} KeySumRemove<K>(m: map<K, real>, keys: set<K>, k: K)
    requires keys <= m.Keys && k in keys
    ensures KeySum(m, keys) == m[k] + KeySum(m, keys - {k})
    decreases keys
  {
    var k' :| k' in keys && KeySum(m, keys) == m[k'] + KeySum(m, keys - {k'});
    if k' != k {
      assert (keys - {k'}) - {k} == (keys - {k}) - {k'};
      KeySumRemove(m, keys - {k'}, k);
      KeySumRemove(m, keys - {k}, k');
    }
  }

  /** Only the values at the summed keys matter. */
  lemma {:induction false} KeySumAgree<K>(m: map<K, real>, m': map<K, real>, keys: set<K>)
    requires keys <= m.Keys && keys <= m'.Keys
    requires forall k :: k in keys ==> m[k] == m'[k]
    ensures KeySum(m, keys) == KeySum(m', keys)
    decreases keys
  {
    if keys != {} {
      var k :| k in keys;
      KeySumRemove(m, keys, k);
      KeySumRemove(m', keys, k);
      KeySumAgree(m, m', keys - {k});
    }
  }

  /** Adding a fresh key adds its value to the sum. */
  lemma MapSumInsert<K>(m: map<K, real>, k: K, v: real)
    requires k !in m
    ensures MapSum(m[k := v]) == MapSum(m) + v
  {
    var m' := m[k := v];
    assert m'.Keys - {k} == m.Keys;
    KeySumRemove(m', m'.Keys, k);
    KeySumAgree(m, m', m.Keys);
  }

  lemma {:induction false} KeySumScaled<K>(m: map<K, real>, s: map<K, real>, keys: set<K>, c: real)
    requires keys <= m.Keys && keys <= s.Keys
    requires forall k :: k in keys ==> s[k] == m[k] * c
    ensures KeySum(s, keys) == KeySum(m, keys) * c
    decreases keys
  {
    if keys != {} {
      var k :| k in keys;
      var rest := keys - {k};
      KeySumRemove(m, keys, k);
      KeySumRemove(s, keys, k);
      KeySumScaled(m, s, rest, c);
      ScaleDistributes(c, m[k], KeySum(m, rest));
    }
  }

  /** Scaling every value of a map by c scales the sum by c. */
  lemma MapSumScaled<K>(m: map<K, real>, s: map<K, real>, c: real)
    requires s.Keys == m.Keys
    requires forall k :: k in m ==> s[k] == m[k] * c
    ensures MapSum(s) == MapSum(m) * c
  {
    KeySumScaled(m, s, m.Keys, c);
  }
}
