/**
 * The problem that `solve_qp` hands to the Clarabel conic solver:
 *
 *   minimise  (1/2) w^T P w + q^T w   subject to   A w + s = b,  s in K
 *
 * with P the upper triangle of the covariance matrix in compressed sparse
 * column (CSC) form, q = 0, A three rows' worth of constraints per asset,
 * and K a zero cone of dimension 2 followed by a non-negative cone of
 * dimension n. The solver itself is a parameter (`ClarabelFn`).
 */
module QpAssembly {
  import opened LinAlg
  import opened Wrappers

  /** Off-diagonal covariances whose magnitude is at most 1e-12 are not stored in P. */
  const SparsityThreshold: real := 0.000000000001

  /**
   * A matrix in compressed sparse column form: the entries of column c are
   * at positions colPtrs[c] .. colPtrs[c+1]-1 of rowIdx and vals.
   */
  datatype Csc = Csc(rows: nat, cols: nat, colPtrs: seq<nat>, rowIdx: seq<nat>, vals: seq<real>)

  datatype Cone = ZeroCone(dim: nat) | NonnegativeCone(dim: nat)

  datatype QpProblem = QpProblem(p: Csc, q: seq<real>, a: Csc, b: seq<real>, cones: seq<Cone>)

  /**
   * The solver: its solution vector x, or None when it cannot be set up
   * (the `.expect` on DefaultSolver::new panics, which the page sees as an
   * exception).
   */
  type ClarabelFn = QpProblem -> Option<seq<real>>

  function Abs(x: real): real
  {
    if x < 0.0 then -x else x
  }

  predicate StrictlyIncreasing(s: seq<nat>)
  {
    forall i, j :: 0 <= i < j < |s| ==> s[i] < s[j]
  }

  /** The column pointers delimit the stored entries. */
  predicate PointersOk(m: Csc)
  {
    && |m.colPtrs| == m.cols + 1
    && m.colPtrs[0] == 0
    && m.colPtrs[m.cols] == |m.rowIdx| == |m.vals|
    && forall c :: 0 <= c < m.cols ==> m.colPtrs[c] <= m.colPtrs[c + 1]
  }

  function ColumnRows(m: Csc, c: nat): (rows: seq<nat>)
    requires PointersOk(m) && c < m.cols
    ensures |rows| == m.colPtrs[c + 1] - m.colPtrs[c]
  {
    ColumnRowsBound(m, c);
    m.rowIdx[m.colPtrs[c]..m.colPtrs[c + 1]]
  }

  function ColumnVals(m: Csc, c: nat): (vals: seq<real>)
    requires PointersOk(m) && c < m.cols
    ensures |vals| == m.colPtrs[c + 1] - m.colPtrs[c]
  {
    ColumnRowsBound(m, c);
    m.vals[m.colPtrs[c]..m.colPtrs[c + 1]]
  }

  lemma {:induction false} PointersMonotone(m: Csc, c: nat, d: nat)
    requires PointersOk(m) && c <= d <= m.cols
    ensures m.colPtrs[c] <= m.colPtrs[d]
    decreases d - c
  {
    if c < d {
      PointersMonotone(m, c + 1, d);
    }
  }

  lemma ColumnRowsBound(m: Csc, c: nat)
    requires PointersOk(m) && c < m.cols
    ensures m.colPtrs[c] <= m.colPtrs[c + 1] <= |m.rowIdx|
  {
    PointersMonotone(m, c + 1, m.cols);
  }

  /** What Clarabel requires of a CSC matrix: row indices in range and sorted within each column. */
  predicate WellFormed(m: Csc)
  {
    && PointersOk(m)
    && (forall k :: 0 <= k < |m.rowIdx| ==> m.rowIdx[k] < m.rows)
    && forall c :: 0 <= c < m.cols ==> StrictlyIncreasing(ColumnRows(m, c))
  }

  /** Only entries on or above the diagonal are stored. */
  predicate UpperTriangular(m: Csc)
    requires PointersOk(m)
  {
    forall c, i :: 0 <= c < m.cols && 0 <= i < |ColumnRows(m, c)| ==> ColumnRows(m, c)[i] <= c
  }

  /** The value stored for row r among a column's entries, 0 if none. */
  function Lookup(rows: seq<nat>, vals: seq<real>, r: nat): real
    requires |rows| == |vals|
  {
    if |rows| == 0 then 0.0
    else if rows[|rows| - 1] == r then vals[|vals| - 1]
    else Lookup(rows[..|rows| - 1], vals[..|vals| - 1], r)
  }

  /** The matrix entry at (r, c). */
  function Entry(m: Csc, r: nat, c: nat): real
    requires PointersOk(m) && c < m.cols
  {
    Lookup(ColumnRows(m, c), ColumnVals(m, c), r)
  }

  // ---------------------------------------------------------------- P

  /**
   * The number of entries of an n by n matrix, n * n (CellsIsProduct),
   * counted one row at a time so that bounds on flat indices stay linear.
   */
  function Cells(n: nat): nat
  {
    if n == 0 then 0 else Cells(n - 1) + n + n - 1
  }

  lemma {:induction false} CellsIsProduct(n: nat)
    ensures Cells(n) == n * n
  {
    if n > 0 {
      CellsIsProduct(n - 1);
    }
  }

  /** Where `cov_matrix_flat` keeps (row, col): row-major, row * n + col. */
  function FlatIndex(row: nat, col: nat, n: nat): (k: nat)
    requires row < n && col < n
    ensures k < Cells(n)
  {
    CellsIsProduct(n);
    RowOffset(row, col, n, n);
    row * n + col
  }

  /** `val.abs() > 1e-12 || row == col`: the entry (row, col) is stored in P. */
  predicate Keep(cov: seq<real>, n: nat, row: nat, col: nat)
    requires row < n && col < n && |cov| >= Cells(n)
  {
    Abs(cov[FlatIndex(row, col, n)]) > SparsityThreshold || row == col
  }

  /** Rows 0 .. k-1 of column col that P stores, in increasing order. */
  function KeptRows(cov: seq<real>, n: nat, col: nat, k: nat): seq<nat>
    requires col < n && k <= n && |cov| >= Cells(n)
  {
    if k == 0 then []
    else KeptRows(cov, n, col, k - 1) + (if Keep(cov, n, k - 1, col) then [k - 1] else [])
  }

  /** The values of those rows. */
  function KeptVals(cov: seq<real>, n: nat, col: nat, k: nat): seq<real>
    requires col < n && k <= n && |cov| >= Cells(n)
  {
    if k == 0 then []
    else KeptVals(cov, n, col, k - 1) + (if Keep(cov, n, k - 1, col) then [cov[FlatIndex(k - 1, col, n)]] else [])
  }

  /** p_row_indices after the first `cols` columns. */
  function PRows(cov: seq<real>, n: nat, cols: nat): seq<nat>
    requires cols <= n && |cov| >= Cells(n)
  {
    if cols == 0 then [] else PRows(cov, n, cols - 1) + KeptRows(cov, n, cols - 1, cols)
  }

  /** p_values after the first `cols` columns. */
  function PVals(cov: seq<real>, n: nat, cols: nat): seq<real>
    requires cols <= n && |cov| >= Cells(n)
  {
    if cols == 0 then [] else PVals(cov, n, cols - 1) + KeptVals(cov, n, cols - 1, cols)
  }

  /** p_col_ptrs after the first `cols` columns: 0, then p_values.len() after each column. */
  function PColPtrs(cov: seq<real>, n: nat, cols: nat): seq<nat>
    requires cols <= n && |cov| >= Cells(n)
  {
    if cols == 0 then [0] else PColPtrs(cov, n, cols - 1) + [|PVals(cov, n, cols)|]
  }

  function PMatrix(cov: seq<real>, n: nat): Csc
    requires |cov| >= Cells(n)
  {
    Csc(n, n, PColPtrs(cov, n, n), PRows(cov, n, n), PVals(cov, n, n))
  }

  /** The nested loops that fill p_col_ptrs, p_row_indices and p_values. */
  method BuildP(cov: seq<real>, n: nat) returns (colPtrs: seq<nat>, rowIdx: seq<nat>, vals: seq<real>)
    requires |cov| >= Cells(n)
    ensures Csc(n, n, colPtrs, rowIdx, vals) == PMatrix(cov, n)
  {
    colPtrs, rowIdx, vals := [0], [], [];
    for col := 0 to n
      invariant colPtrs == PColPtrs(cov, n, col)
      invariant rowIdx == PRows(cov, n, col)
      invariant vals == PVals(cov, n, col)
    {
      rowIdx, vals := PushColumn(cov, n, col, rowIdx, vals);
      PStep(cov, n, col);
      colPtrs := colPtrs + [|vals|];
    }
  }

  /** One more column of P: its kept entries, then its end pointer. */
  lemma PStep(cov: seq<real>, n: nat, col: nat)
    requires col < n && |cov| >= Cells(n)
    ensures PRows(cov, n, col + 1) == PRows(cov, n, col) + KeptRows(cov, n, col, col + 1)
    ensures PVals(cov, n, col + 1) == PVals(cov, n, col) + KeptVals(cov, n, col, col + 1)
    ensures PColPtrs(cov, n, col + 1) == PColPtrs(cov, n, col) + [|PVals(cov, n, col + 1)|]
  {
  }

  /** The inner loop over rows 0 ..= col: push every kept entry of column col. */
  method PushColumn(cov: seq<real>, n: nat, col: nat, rowIdx0: seq<nat>, vals0: seq<real>)
    returns (rowIdx: seq<nat>, vals: seq<real>)
    requires col < n && |cov| >= Cells(n)
    ensures rowIdx == rowIdx0 + KeptRows(cov, n, col, col + 1)
    ensures vals == vals0 + KeptVals(cov, n, col, col + 1)
  {
    rowIdx, vals := rowIdx0, vals0;
    for row := 0 to col + 1
      invariant rowIdx == rowIdx0 + KeptRows(cov, n, col, row)
      invariant vals == vals0 + KeptVals(cov, n, col, row)
    {
      var val := cov[FlatIndex(row, col, n)];
      if Abs(val) > SparsityThreshold || row == col {
        rowIdx := rowIdx + [row];
        vals := vals + [val];
      }
    }
  }

  /** The kept rows of a column are as many as its values, strictly increasing and below k. */
  lemma {:induction false} KeptColumnShape(cov: seq<real>, n: nat, col: nat, k: nat)
    requires col < n && k <= n && |cov| >= Cells(n)
    ensures |KeptRows(cov, n, col, k)| == |KeptVals(cov, n, col, k)|
    ensures StrictlyIncreasing(KeptRows(cov, n, col, k))
    ensures forall i :: 0 <= i < |KeptRows(cov, n, col, k)| ==> KeptRows(cov, n, col, k)[i] < k
  {
    if k > 0 {
      KeptColumnShape(cov, n, col, k - 1);
    }
  }

  /** A row is among the first k kept rows of a column exactly when it is below k and kept. */
  lemma {:induction false} KeptRowsMembers(cov: seq<real>, n: nat, col: nat, k: nat)
    requires col < n && k <= n && |cov| >= Cells(n)
    ensures forall r: nat :: r in KeptRows(cov, n, col, k) <==> r < k && Keep(cov, n, r, col)
  {
    if k > 0 {
      KeptRowsMembers(cov, n, col, k - 1);
    }
  }

  /** Looking a row up among the kept entries gives its covariance when kept, 0 otherwise. */
  lemma {:induction false} KeptColumnLookup(cov: seq<real>, n: nat, col: nat, k: nat, r: nat)
    requires col < n && k <= n && r < n && |cov| >= Cells(n)
    ensures |KeptRows(cov, n, col, k)| == |KeptVals(cov, n, col, k)|
    ensures Lookup(KeptRows(cov, n, col, k), KeptVals(cov, n, col, k), r)
      == if r < k && Keep(cov, n, r, col) then cov[FlatIndex(r, col, n)] else 0.0
  {
    KeptColumnShape(cov, n, col, k);
    if k > 0 {
      KeptColumnLookup(cov, n, col, k - 1, r);
      var rows, vals := KeptRows(cov, n, col, k), KeptVals(cov, n, col, k);
      var rows', vals' := KeptRows(cov, n, col, k - 1), KeptVals(cov, n, col, k - 1);
      if Keep(cov, n, k - 1, col) {
        assert rows[..|rows| - 1] == rows' && vals[..|vals| - 1] == vals';
      } else {
        assert rows == rows' && vals == vals';
      }
    }
  }

  /** ptrs, rows and vals hold the first `cols` columns of P, column after column. */
  predicate LaidOut(cov: seq<real>, n: nat, cols: nat, ptrs: seq<nat>, rows: seq<nat>, vals: seq<real>)
    requires cols <= n && |cov| >= Cells(n)
  {
    && |ptrs| == cols + 1 && ptrs[0] == 0 && ptrs[cols] == |rows| == |vals|
    && forall c {:trigger ptrs[c]} :: 0 <= c < cols ==>
      && ptrs[c] <= ptrs[c + 1] <= |rows|
      && rows[ptrs[c]..ptrs[c + 1]] == KeptRows(cov, n, c, c + 1)
      && vals[ptrs[c]..ptrs[c + 1]] == KeptVals(cov, n, c, c + 1)
  }

  /** Appending one more column's entries and its end pointer keeps the layout. */
  lemma LaidOutStep(cov: seq<real>, n: nat, cols: nat, ptrs: seq<nat>, rows: seq<nat>, vals: seq<real>,
                    newRows: seq<nat>, newVals: seq<real>, ptrs': seq<nat>, rows': seq<nat>, vals': seq<real>)
    requires cols < n && |cov| >= Cells(n)
    requires LaidOut(cov, n, cols, ptrs, rows, vals)
    requires newRows == KeptRows(cov, n, cols, cols + 1) && newVals == KeptVals(cov, n, cols, cols + 1)
    requires |newRows| == |newVals|
    requires rows' == rows + newRows && vals' == vals + newVals && ptrs' == ptrs + [|vals'|]
    ensures LaidOut(cov, n, cols + 1, ptrs', rows', vals')
  {
    forall c {:trigger ptrs'[c]} | 0 <= c < cols + 1
      ensures ptrs'[c] <= ptrs'[c + 1] <= |rows'|
      ensures rows'[ptrs'[c]..ptrs'[c + 1]] == KeptRows(cov, n, c, c + 1)
      ensures vals'[ptrs'[c]..ptrs'[c + 1]] == KeptVals(cov, n, c, c + 1)
    {
      if c < cols {
        EarlierColumn(ptrs, rows, vals, newRows, newVals, c);
      } else {
        LastColumn(ptrs, rows, vals, newRows, newVals);
      }
    }
  }

  /** An earlier column keeps its bounds and its entries when a column is appended. */
  lemma EarlierColumn(ptrs: seq<nat>, rows: seq<nat>, vals: seq<real>, newRows: seq<nat>, newVals: seq<real>, c: nat)
    requires c + 1 < |ptrs| && ptrs[c] <= ptrs[c + 1] <= |rows| == |vals|
    ensures var ptrs', rows', vals' := ptrs + [|vals + newVals|], rows + newRows, vals + newVals;
      && ptrs'[c] == ptrs[c] && ptrs'[c + 1] == ptrs[c + 1]
      && rows'[ptrs'[c]..ptrs'[c + 1]] == rows[ptrs[c]..ptrs[c + 1]]
      && vals'[ptrs'[c]..ptrs'[c + 1]] == vals[ptrs[c]..ptrs[c + 1]]
  {
    SliceOfFront(rows, newRows, ptrs[c], ptrs[c + 1]);
    SliceOfFront(vals, newVals, ptrs[c], ptrs[c + 1]);
  }

  /** The appended column spans from the old end pointer to the new one. */
  lemma LastColumn(ptrs: seq<nat>, rows: seq<nat>, vals: seq<real>, newRows: seq<nat>, newVals: seq<real>)
    requires |ptrs| > 0 && ptrs[|ptrs| - 1] == |rows| == |vals| && |newRows| == |newVals|
    ensures var ptrs', rows', vals' := ptrs + [|vals + newVals|], rows + newRows, vals + newVals;
      var c := |ptrs| - 1;
      && ptrs'[c] == |rows| <= ptrs'[c + 1] == |rows'|
      && rows'[ptrs'[c]..ptrs'[c + 1]] == newRows
      && vals'[ptrs'[c]..ptrs'[c + 1]] == newVals
  {
    SliceOfBack(rows, newRows);
    SliceOfBack(vals, newVals);
  }

  lemma {:induction false} PLayout(cov: seq<real>, n: nat, cols: nat)
    requires cols <= n && |cov| >= Cells(n)
    ensures LaidOut(cov, n, cols, PColPtrs(cov, n, cols), PRows(cov, n, cols), PVals(cov, n, cols))
  {
    if cols > 0 {
      PLayout(cov, n, cols - 1);
      KeptColumnShape(cov, n, cols - 1, cols);
      PStep(cov, n, cols - 1);
      var ptrs, rows, vals := PColPtrs(cov, n, cols - 1), PRows(cov, n, cols - 1), PVals(cov, n, cols - 1);
      var newRows, newVals := KeptRows(cov, n, cols - 1, cols), KeptVals(cov, n, cols - 1, cols);
      var ptrs', rows', vals' := PColPtrs(cov, n, cols), PRows(cov, n, cols), PVals(cov, n, cols);
      assert rows' == rows + newRows && vals' == vals + newVals && ptrs' == ptrs + [|vals'|];
      LaidOutStep(cov, n, cols - 1, ptrs, rows, vals, newRows, newVals, ptrs', rows', vals');
    }
  }

  lemma SliceOfFront<T>(s: seq<T>, t: seq<T>, i: nat, j: nat)
    requires i <= j <= |s|
    ensures (s + t)[i..j] == s[i..j]
  {
  }

  lemma SliceOfBack<T>(s: seq<T>, t: seq<T>)
    ensures (s + t)[|s|..|s| + |t|] == t
  {
  }

  /** Column c of P holds exactly the kept rows of column c. */
  lemma PColumn(cov: seq<real>, n: nat, c: nat)
    requires |cov| >= Cells(n) && c < n
    ensures PointersOk(PMatrix(cov, n))
    ensures ColumnRows(PMatrix(cov, n), c) == KeptRows(cov, n, c, c + 1)
    ensures ColumnVals(PMatrix(cov, n), c) == KeptVals(cov, n, c, c + 1)
  {
    PLayout(cov, n, n);
    var p := PMatrix(cov, n);
    assert PointersOk(p);
  }

  /** Every column of P lists its rows in increasing order, none below the diagonal. */
  lemma PColumnsSorted(cov: seq<real>, n: nat)
    requires |cov| >= Cells(n)
    ensures PointersOk(PMatrix(cov, n))
    ensures forall c :: 0 <= c < n ==> StrictlyIncreasing(ColumnRows(PMatrix(cov, n), c))
    ensures UpperTriangular(PMatrix(cov, n))
  {
    var p := PMatrix(cov, n);
    PLayout(cov, n, n);
    assert PointersOk(p);
    forall c | 0 <= c < n
      ensures StrictlyIncreasing(ColumnRows(p, c))
      ensures forall i :: 0 <= i < |ColumnRows(p, c)| ==> ColumnRows(p, c)[i] <= c
    {
      PColumn(cov, n, c);
      KeptColumnShape(cov, n, c, c + 1);
    }
  }

  lemma {:induction false} PRowsBound(cov: seq<real>, n: nat, cols: nat)
    requires cols <= n && |cov| >= Cells(n)
    ensures forall k :: 0 <= k < |PRows(cov, n, cols)| ==> PRows(cov, n, cols)[k] < cols
  {
    if cols > 0 {
      PRowsBound(cov, n, cols - 1);
      KeptColumnShape(cov, n, cols - 1, cols);
      BoundedAppend(PRows(cov, n, cols - 1), KeptRows(cov, n, cols - 1, cols), cols);
    }
  }

  lemma BoundedAppend(s: seq<nat>, t: seq<nat>, b: nat)
    requires forall k :: 0 <= k < |s| ==> s[k] < b
    requires forall k :: 0 <= k < |t| ==> t[k] < b
    ensures forall k :: 0 <= k < |s + t| ==> (s + t)[k] < b
  {
  }

  /** Every row index stored in P is below n. */
  lemma PRowsInRange(cov: seq<real>, n: nat)
    requires |cov| >= Cells(n)
    ensures forall k :: 0 <= k < |PMatrix(cov, n).rowIdx| ==> PMatrix(cov, n).rowIdx[k] < n
  {
    PRowsBound(cov, n, n);
  }

  /**
   * P is a well-formed CSC matrix holding only the upper triangle; every
   * column ends with its diagonal entry.
   */
  lemma PMatrixShape(cov: seq<real>, n: nat)
    requires |cov| >= Cells(n)
    ensures WellFormed(PMatrix(cov, n)) && UpperTriangular(PMatrix(cov, n))
    ensures |PMatrix(cov, n).colPtrs| == n + 1 && PMatrix(cov, n).colPtrs[n] == |PMatrix(cov, n).vals|
    ensures forall c :: 0 <= c < n ==>
      var rows := ColumnRows(PMatrix(cov, n), c);
      |rows| > 0 && rows[|rows| - 1] == c
  {
    PColumnsSorted(cov, n);
    PRowsInRange(cov, n);
    forall c | 0 <= c < n
      ensures var rows := ColumnRows(PMatrix(cov, n), c);
        |rows| > 0 && rows[|rows| - 1] == c
    {
      PColumn(cov, n, c);
      PDiagonalLast(cov, n, c);
    }
  }

  /** The last kept row of column c is c itself: the diagonal is always stored. */
  lemma PDiagonalLast(cov: seq<real>, n: nat, c: nat)
    requires |cov| >= Cells(n) && c < n
    ensures var rows := KeptRows(cov, n, c, c + 1);
      |rows| > 0 && rows[|rows| - 1] == c
  {
    assert Keep(cov, n, c, c);
  }

  /**
   * Which rows column c of P stores: the diagonal always, an entry above
   * it exactly when its magnitude exceeds 1e-12, nothing below it.
   */
  lemma PStoredRows(cov: seq<real>, n: nat, r: nat, c: nat)
    requires |cov| >= Cells(n) && r < n && c < n
    ensures PointersOk(PMatrix(cov, n))
    ensures r in ColumnRows(PMatrix(cov, n), c)
      <==> r == c || (r < c && Abs(cov[FlatIndex(r, c, n)]) > SparsityThreshold)
  {
    PColumn(cov, n, c);
    KeptRowsMembers(cov, n, c, c + 1);
  }

  /** The column whose entries include position k, searching from column c on. */
  function ColumnOf(m: Csc, k: nat, c: nat): (col: nat)
    requires PointersOk(m) && c < m.cols && m.colPtrs[c] <= k < |m.rowIdx|
    ensures c <= col < m.cols && m.colPtrs[col] <= k < m.colPtrs[col + 1]
    decreases m.cols - c
  {
    if k < m.colPtrs[c + 1] then c else ColumnOf(m, k, c + 1)
  }

  /**
   * Reading P back: the entry at (r, c) is the covariance cov[r*n + c]
   * when r <= c and it is on the diagonal or larger than 1e-12 in
   * magnitude, and 0 otherwise.
   */
  lemma PMatrixEntries(cov: seq<real>, n: nat, r: nat, c: nat)
    requires |cov| >= Cells(n) && r < n && c < n
    ensures PointersOk(PMatrix(cov, n))
    ensures Entry(PMatrix(cov, n), r, c)
      == if r <= c && (r == c || Abs(cov[FlatIndex(r, c, n)]) > SparsityThreshold) then cov[FlatIndex(r, c, n)] else 0.0
  {
    PColumn(cov, n, c);
    KeptColumnLookup(cov, n, c, c + 1, r);
  }

  /** Every upper-triangle entry of P is within 1e-12 of the covariance, and the diagonal is exact. */
  lemma PMatrixApproximatesCov(cov: seq<real>, n: nat, r: nat, c: nat)
    requires |cov| >= Cells(n) && r <= c < n
    ensures PointersOk(PMatrix(cov, n))
    ensures Abs(Entry(PMatrix(cov, n), r, c) - cov[FlatIndex(r, c, n)]) <= SparsityThreshold
    ensures r == c ==> Entry(PMatrix(cov, n), r, c) == cov[FlatIndex(r, c, n)]
  {
    PMatrixEntries(cov, n, r, c);
  }

  // ---------------------------------------------------------------- q, A, b, cones

  function Zeros(n: nat): (z: seq<real>)
    ensures |z| == n && forall i :: 0 <= i < n ==> z[i] == 0.0
  {
    seq(n, _ => 0.0)
  }

  /** a_row_indices after the first `cols` columns: rows 0, 1 and 2 + col for each column. */
  function ARows(cols: nat): seq<nat>
  {
    if cols == 0 then [] else ARows(cols - 1) + [0, 1, 2 + (cols - 1)]
  }

  /** a_values after the first `cols` columns: 1.0, mean_returns[col] and -1.0 for each column. */
  function AVals(mean: seq<real>, cols: nat): seq<real>
    requires cols <= |mean|
  {
    if cols == 0 then [] else AVals(mean, cols - 1) + [1.0, mean[cols - 1], -1.0]
  }

  function AColPtrs(mean: seq<real>, cols: nat): seq<nat>
    requires cols <= |mean|
  {
    if cols == 0 then [0] else AColPtrs(mean, cols - 1) + [|AVals(mean, cols)|]
  }

  /** The (n + 2) by n constraint matrix. */
  function AMatrix(mean: seq<real>): Csc
  {
    Csc(|mean| + 2, |mean|, AColPtrs(mean, |mean|), ARows(|mean|), AVals(mean, |mean|))
  }

  /** The loop that fills a_col_ptrs, a_row_indices and a_values. */
  method BuildA(mean: seq<real>) returns (colPtrs: seq<nat>, rowIdx: seq<nat>, vals: seq<real>)
    ensures Csc(|mean| + 2, |mean|, colPtrs, rowIdx, vals) == AMatrix(mean)
  {
    colPtrs, rowIdx, vals := [0], [], [];
    for col := 0 to |mean|
      invariant colPtrs == AColPtrs(mean, col)
      invariant rowIdx == ARows(col)
      invariant vals == AVals(mean, col)
    {
      // sum(w) = 1
      rowIdx := rowIdx + [0];
      vals := vals + [1.0];
      // sum(w * r) = target
      rowIdx := rowIdx + [1];
      vals := vals + [mean[col]];
      // w >= 0, written -w <= 0
      rowIdx := rowIdx + [2 + col];
      vals := vals + [-1.0];
      colPtrs := colPtrs + [|vals|];
    }
  }

  /** Column c of A's row indices sits at positions 3c .. 3c+2, and every index is below cols + 2. */
  lemma {:induction false} ARowsLayout(cols: nat)
    ensures |ARows(cols)| == 3 * cols
    ensures forall k :: 0 <= k < |ARows(cols)| ==> ARows(cols)[k] < cols + 2
    ensures forall c :: 0 <= c < cols ==> ARows(cols)[3 * c..3 * c + 3] == [0, 1, 2 + c]
  {
    if cols > 0 {
      ARowsLayout(cols - 1);
      var rows', last := ARows(cols - 1), [0, 1, 2 + (cols - 1)];
      forall c | 0 <= c < cols
        ensures ARows(cols)[3 * c..3 * c + 3] == [0, 1, 2 + c]
      {
        if c < cols - 1 {
          SliceOfFront(rows', last, 3 * c, 3 * c + 3);
        } else {
          SliceOfBack(rows', last);
        }
      }
    }
  }

  /** Column c of A's values sits at positions 3c .. 3c+2. */
  lemma {:induction false} AValsLayout(mean: seq<real>, cols: nat)
    requires cols <= |mean|
    ensures |AVals(mean, cols)| == 3 * cols
    ensures forall c :: 0 <= c < cols ==> AVals(mean, cols)[3 * c..3 * c + 3] == [1.0, mean[c], -1.0]
  {
    if cols > 0 {
      AValsLayout(mean, cols - 1);
      var vals', last := AVals(mean, cols - 1), [1.0, mean[cols - 1], -1.0];
      forall c | 0 <= c < cols
        ensures AVals(mean, cols)[3 * c..3 * c + 3] == [1.0, mean[c], -1.0]
      {
        if c < cols - 1 {
          SliceOfFront(vals', last, 3 * c, 3 * c + 3);
        } else {
          SliceOfBack(vals', last);
        }
      }
    }
  }

  /** Column c of A starts at 3c. */
  lemma {:induction false} APointers(mean: seq<real>, cols: nat)
    requires cols <= |mean|
    ensures |AColPtrs(mean, cols)| == cols + 1
    ensures forall c :: 0 <= c <= cols ==> AColPtrs(mean, cols)[c] == 3 * c
  {
    AValsLayout(mean, cols);
    if cols > 0 {
      APointers(mean, cols - 1);
    }
  }

  /** A's column pointers are 0, 3, 6, ..., 3n, and they delimit its entries. */
  lemma APointersOk(mean: seq<real>)
    ensures PointersOk(AMatrix(mean))
    ensures forall c :: 0 <= c <= |mean| ==> AMatrix(mean).colPtrs[c] == 3 * c
  {
    AValsLayout(mean, |mean|);
    APointers(mean, |mean|);
    ARowsLayout(|mean|);
  }

  /** Column c of A holds rows 0, 1, 2 + c with values 1, mean[c], -1. */
  lemma AColumn(mean: seq<real>, c: nat)
    requires c < |mean|
    ensures PointersOk(AMatrix(mean))
    ensures ColumnRows(AMatrix(mean), c) == [0, 1, 2 + c]
    ensures ColumnVals(AMatrix(mean), c) == [1.0, mean[c], -1.0]
  {
    APointersOk(mean);
    ARowsLayout(|mean|);
    AValsLayout(mean, |mean|);
    var a := AMatrix(mean);
    assert a.colPtrs[c] == 3 * c && a.colPtrs[c + 1] == 3 * c + 3;
  }

  /**
   * A is well formed and column k holds exactly three entries: 1 in row 0
   * (sum of weights), mean_returns[k] in row 1 (portfolio return) and -1
   * in row 2 + k (the sign constraint on w_k).
   */
  lemma AMatrixShape(mean: seq<real>)
    ensures WellFormed(AMatrix(mean))
    ensures forall c :: 0 <= c <= |mean| ==> AMatrix(mean).colPtrs[c] == 3 * c
    ensures forall c :: 0 <= c < |mean| ==> ColumnRows(AMatrix(mean), c) == [0, 1, 2 + c]
    ensures forall c :: 0 <= c < |mean| ==> ColumnVals(AMatrix(mean), c) == [1.0, mean[c], -1.0]
  {
    APointersOk(mean);
    ARowsLayout(|mean|);
    var a := AMatrix(mean);
    forall c | 0 <= c < |mean|
      ensures ColumnRows(a, c) == [0, 1, 2 + c] && ColumnVals(a, c) == [1.0, mean[c], -1.0]
      ensures StrictlyIncreasing(ColumnRows(a, c))
    {
      AColumn(mean, c);
    }
  }

  /** The entries of A in closed form. */
  lemma AMatrixEntries(mean: seq<real>, r: nat, c: nat)
    requires c < |mean|
    ensures PointersOk(AMatrix(mean))
    ensures Entry(AMatrix(mean), r, c)
      == if r == 0 then 1.0 else if r == 1 then mean[c] else if r == 2 + c then -1.0 else 0.0
  {
    AMatrixShape(mean);
    var rows, vals := ColumnRows(AMatrix(mean), c), ColumnVals(AMatrix(mean), c);
    assert rows[..2] == [0, 1] && vals[..2] == [1.0, mean[c]];
    assert [0, 1][..1] == [0] && [1.0, mean[c]][..1] == [1.0];
    assert Lookup([0], [1.0], r) == if r == 0 then 1.0 else 0.0;
    assert Lookup([0, 1], [1.0, mean[c]], r) == if r == 1 then mean[c] else Lookup([0], [1.0], r);
    assert Lookup(rows, vals, r) == if r == 2 + c then -1.0 else Lookup([0, 1], [1.0, mean[c]], r);
  }

  /** `vec![0.0; n + 2]` with b[0] = 1.0 and b[1] = target_return, filled in place. */
  method BuildB(n: nat, target: real) returns (b: seq<real>)
    ensures |b| == n + 2
    ensures b[0] == 1.0 && b[1] == target
    ensures forall i :: 2 <= i < n + 2 ==> b[i] == 0.0
  {
    var arr := new real[n + 2](_ => 0.0);
    arr[0] := 1.0;
    arr[1] := target;
    b := arr[..];
  }

  function BVector(n: nat, target: real): seq<real>
  {
    [1.0, target] + Zeros(n)
  }

  function ConeDims(cones: seq<Cone>): nat
  {
    if cones == [] then 0 else cones[0].dim + ConeDims(cones[1..])
  }

  /** Two equality rows, then n rows constrained to be non-negative. */
  function Cones(n: nat): (k: seq<Cone>)
    ensures ConeDims(k) == n + 2
  {
    var k := [ZeroCone(2), NonnegativeCone(n)];
    assert ConeDims(k[1..][1..]) == 0;
    k
  }

  /** The whole problem solve_qp builds from its three arguments. */
  function Problem(mean: seq<real>, covFlat: seq<real>, target: real): QpProblem
    requires |covFlat| >= Cells(|mean|)
  {
    QpProblem(PMatrix(covFlat, |mean|), Zeros(|mean|), AMatrix(mean), BVector(|mean|, target), Cones(|mean|))
  }

  // ---------------------------------------------------------------- meaning of the constraints

  /** Row r of A x, over the first k columns. */
  function RowTimes(m: Csc, r: nat, x: seq<real>, k: nat): real
    requires PointersOk(m) && |x| == m.cols && k <= m.cols
  {
    if k == 0 then 0.0 else RowTimes(m, r, x, k - 1) + Entry(m, r, k - 1) * x[k - 1]
  }

  /** Membership of a slack vector in a product of cones, in order. */
  predicate InCones(s: seq<real>, cones: seq<Cone>)
  {
    if cones == [] then s == []
    else
      var d := cones[0].dim;
      && d <= |s|
      && (if cones[0].ZeroCone? then forall i :: 0 <= i < d ==> s[i] == 0.0
          else forall i :: 0 <= i < d ==> s[i] >= 0.0)
      && InCones(s[d..], cones[1..])
  }

  /** The slack s = b - A x. */
  function Slack(a: Csc, b: seq<real>, x: seq<real>): (s: seq<real>)
    requires PointersOk(a) && |b| == a.rows && |x| == a.cols
    ensures |s| == a.rows
    ensures forall r :: 0 <= r < a.rows ==> s[r] == b[r] - RowTimes(a, r, x, |x|)
  {
    seq(a.rows, r requires 0 <= r < a.rows => b[r] - RowTimes(a, r, x, |x|))
  }

  /** x is feasible for the problem: the slack lies in the cones. */
  predicate Feasible(prob: QpProblem, x: seq<real>)
    requires PointersOk(prob.a) && |prob.b| == prob.a.rows
  {
    |x| == prob.a.cols && InCones(Slack(prob.a, prob.b, x), prob.cones)
  }

  lemma {:induction false} ARowSum(mean: seq<real>, x: seq<real>, k: nat)
    requires |x| == |mean| && k <= |mean|
    ensures PointersOk(AMatrix(mean))
    ensures RowTimes(AMatrix(mean), 0, x, k) == SumTo(x, k)
  {
    AMatrixShape(mean);
    if k > 0 {
      ARowSum(mean, x, k - 1);
      AMatrixEntries(mean, 0, k - 1);
    }
  }

  lemma {:induction false} ARowReturn(mean: seq<real>, x: seq<real>, k: nat)
    requires |x| == |mean| && k <= |mean|
    ensures PointersOk(AMatrix(mean))
    ensures RowTimes(AMatrix(mean), 1, x, k) == DotTo(mean, x, k)
  {
    AMatrixShape(mean);
    if k > 0 {
      ARowReturn(mean, x, k - 1);
      AMatrixEntries(mean, 1, k - 1);
    }
  }

  lemma {:induction false} ARowSign(mean: seq<real>, x: seq<real>, j: nat, k: nat)
    requires |x| == |mean| && j < |mean| && k <= |mean|
    ensures PointersOk(AMatrix(mean))
    ensures RowTimes(AMatrix(mean), 2 + j, x, k) == if j < k then -x[j] else 0.0
  {
    AMatrixShape(mean);
    if k > 0 {
      ARowSign(mean, x, j, k - 1);
      AMatrixEntries(mean, 2 + j, k - 1);
    }
  }

  /** A slack vector of length n + 2 lies in the cones iff its first two entries are 0 and the rest non-negative. */
  lemma InConesMeaning(s: seq<real>, n: nat)
    requires |s| == n + 2
    ensures InCones(s, Cones(n))
        <==> s[0] == 0.0 && s[1] == 0.0 && forall i :: 2 <= i < n + 2 ==> s[i] >= 0.0
  {
    var k := Cones(n);
    var rest := s[2..];
    assert k[0] == ZeroCone(2) && k[1..] == [NonnegativeCone(n)] && k[1..][1..] == [];
    assert rest[n..] == [];
    assert InCones(rest[n..], []);
    assert InCones(rest, [NonnegativeCone(n)]) <==> forall j :: 0 <= j < n ==> rest[j] >= 0.0;
    assert InCones(s, k) <==> (s[0] == 0.0 && s[1] == 0.0 && InCones(rest, [NonnegativeCone(n)]));
    assert (forall j :: 0 <= j < n ==> rest[j] >= 0.0) <==> forall i :: 2 <= i < n + 2 ==> s[i] >= 0.0 by {
      assert forall j :: 0 <= j < n ==> rest[j] == s[j + 2];
    }
  }

  /** The slack b - A x of the problem: 1 - sum(x), target - mean . x, then x itself. */
  lemma SlackMeaning(mean: seq<real>, target: real, x: seq<real>, s: seq<real>)
    requires |x| == |mean| && PointersOk(AMatrix(mean))
    requires s == Slack(AMatrix(mean), BVector(|mean|, target), x)
    ensures s[0] == 1.0 - Sum(x) && s[1] == target - Dot(mean, x)
    ensures forall i :: 2 <= i < |mean| + 2 ==> s[i] == x[i - 2]
  {
    ARowSum(mean, x, |mean|);
    ARowReturn(mean, x, |mean|);
    forall i | 2 <= i < |mean| + 2
      ensures s[i] == x[i - 2]
    {
      ARowSign(mean, x, i - 2, |mean|);
    }
  }

  /**
   * The constraints solve_qp builds say exactly: the weights sum to 1, the
   * weighted mean return is the target, and every weight is non-negative.
   * So the solver, not the page, enforces w >= 0.
   */
  lemma ConstraintsMeaning(mean: seq<real>, covFlat: seq<real>, target: real, x: seq<real>)
    requires |covFlat| >= Cells(|mean|) && |x| == |mean|
    ensures PointersOk(Problem(mean, covFlat, target).a)
    ensures |Problem(mean, covFlat, target).b| == Problem(mean, covFlat, target).a.rows
    ensures Feasible(Problem(mean, covFlat, target), x)
        <==> Sum(x) == 1.0 && Dot(mean, x) == target && forall k :: 0 <= k < |x| ==> x[k] >= 0.0
  {
    var n := |mean|;
    var prob := Problem(mean, covFlat, target);
    AMatrixShape(mean);
    assert prob.a == AMatrix(mean) && prob.b == BVector(n, target) && prob.cones == Cones(n);
    var s := Slack(AMatrix(mean), BVector(n, target), x);
    SlackMeaning(mean, target, x, s);
    InConesMeaning(s, n);
    assert (forall i :: 2 <= i < n + 2 ==> s[i] >= 0.0) <==> forall k :: 0 <= k < |x| ==> x[k] >= 0.0 by {
      assert forall k :: 0 <= k < |x| ==> s[k + 2] == x[k];
    }
  }

  // ---------------------------------------------------------------- the call

  /**
   * solve_qp: build P, q, A, b and the cones, call the solver, and return
   * its x when non-empty, otherwise a zero vector of length n. A flat
   * covariance shorter than n * n makes the read of cov_matrix_flat[row * n + col]
   * panic, as does a failed solver set-up; both are None.
   */
  method SolveQp(mean: seq<real>, covFlat: seq<real>, target: real, clarabel: ClarabelFn) returns (x: Option<seq<real>>)
    ensures |covFlat| < Cells(|mean|) ==> x.None?
    ensures |covFlat| >= Cells(|mean|) && clarabel(Problem(mean, covFlat, target)).None? ==> x.None?
    ensures |covFlat| >= Cells(|mean|) && clarabel(Problem(mean, covFlat, target)).Some? ==>
      var sol := clarabel(Problem(mean, covFlat, target)).value;
      x == Some(if |sol| > 0 then sol else Zeros(|mean|))
    ensures x == SolveQpResult(mean, covFlat, target, clarabel)
  {
    var n := |mean|;
    if |covFlat| < Cells(n) {
      return None;
    }
    var pColPtrs, pRowIdx, pVals := BuildP(covFlat, n);
    var q := Zeros(n);
    var aColPtrs, aRowIdx, aVals := BuildA(mean);
    var b := BuildB(n, target);
    assert b == BVector(n, target);
    var prob := QpProblem(Csc(n, n, pColPtrs, pRowIdx, pVals), q,
                          Csc(n + 2, n, aColPtrs, aRowIdx, aVals), b, Cones(n));
    var result := clarabel(prob);
    match result
    case None =>
      x := None;
    case Some(sol) =>
      x := Some(if |sol| > 0 then sol else Zeros(n));
  }

  /** `covMatrix.flat()`: the rows of a matrix, one after another. */
  function Flatten(m: seq<seq<real>>): seq<real>
  {
    if m == [] then [] else Flatten(m[..|m| - 1]) + m[|m| - 1]
  }

  lemma {:induction false} FlattenLength(m: seq<seq<real>>, k: nat, n: nat)
    requires |m| == k && forall i :: 0 <= i < k ==> |m[i]| == n
    ensures |Flatten(m)| == k * n
  {
    if k > 0 {
      FlattenLength(m[..k - 1], k - 1, n);
    }
  }

  /** Flattening k rows of n entries puts m[r][c] at r * n + c. */
  lemma {:induction false} FlattenEntry(m: seq<seq<real>>, k: nat, n: nat, r: nat, c: nat)
    requires |m| == k && forall i :: 0 <= i < k ==> |m[i]| == n
    requires r < k && c < n
    ensures r * n + c < |Flatten(m)| && Flatten(m)[r * n + c] == m[r][c]
  {
    var front := m[..k - 1];
    FlattenLength(front, k - 1, n);
    assert Flatten(m) == Flatten(front) + m[k - 1];
    if r < k - 1 {
      FlattenEntry(front, k - 1, n, r, c);
      assert front[r] == m[r];
    }
  }

  /**
   * Flattening an n by n matrix row by row puts m[r][c] at r * n + c,
   * the position solve_qp reads it from.
   */
  lemma FlattenRowMajor(m: seq<seq<real>>, n: nat)
    requires IsSquare(m, n)
    ensures |Flatten(m)| == Cells(n)
    ensures forall r, c :: 0 <= r < n && 0 <= c < n ==> Flatten(m)[FlatIndex(r, c, n)] == m[r][c]
  {
    FlattenLength(m, n, n);
    CellsIsProduct(n);
    forall r, c | 0 <= r < n && 0 <= c < n
      ensures Flatten(m)[FlatIndex(r, c, n)] == m[r][c]
    {
      FlattenEntry(m, n, n, r, c);
    }
  }

  lemma {:induction false} RowOffset(r: nat, c: nat, k: nat, n: nat)
    requires r < k && c < n
    ensures r * n + c < k * n
    decreases k - r
  {
    if r + 1 < k {
      RowOffset(r + 1, c, k, n);
    }
  }

  /** What solve_qp returns, as a value: the result SolveQp computes. */
  function SolveQpResult(mean: seq<real>, covFlat: seq<real>, target: real, clarabel: ClarabelFn): Option<seq<real>>
  {
    if |covFlat| < Cells(|mean|) then None
    else match clarabel(Problem(mean, covFlat, target))
      case None => None
      case Some(sol) => Some(if |sol| > 0 then sol else Zeros(|mean|))
  }

  /** Clarabel's solution vector has one entry per variable, or none at all. */
  ghost predicate SolutionSized(clarabel: ClarabelFn)
  {
    forall prob :: clarabel(prob).Some? ==> |clarabel(prob).value| == 0 || |clarabel(prob).value| == prob.p.cols
  }

  /**
   * With such a solver, solve_qp's answer always has one weight per asset:
   * the zero-vector fallback fills in for an empty solution.
   */
  lemma SolveQpLength(mean: seq<real>, covFlat: seq<real>, target: real, clarabel: ClarabelFn)
    requires SolutionSized(clarabel)
    ensures SolveQpResult(mean, covFlat, target, clarabel).Some? ==> |SolveQpResult(mean, covFlat, target, clarabel).value| == |mean|
  {
    if |covFlat| >= Cells(|mean|) {
      var prob := Problem(mean, covFlat, target);
      assert prob.p.cols == |mean|;
    }
  }
}
