/**
 * Dense matrix helpers (the C# class DenseMatrix): matrix-vector and matrix-matrix products with
 * their dimension checks, and reading a rectangular matrix from a parsed JSON array of rows.
 */
module DenseMatrix {
  import opened Wrappers
  import opened Numerics

  /**
   * A C# `double[,]`: its rows, and its column count, which a matrix with no rows still has.
   */
  datatype Matrix = Matrix(cells: seq<seq<real>>, cols: nat) {
    ghost predicate Valid()
    {
      Rectangular(cells, cols)
    }

    function Rows(): nat
    {
      |cells|
    }
  }

  type Mat = m: Matrix | m.Valid() witness Matrix([], 0)

  function ZeroMatrix(rows: nat, cols: nat): (z: Mat)
    ensures z.Rows() == rows && z.cols == cols
  {
    Matrix(seq(rows, i => Zeros(cols)), cols)
  }

  /** The mathematical product W x, summed over j in index order for each row. */
  function Product(W: Mat, x: seq<real>): seq<real>
    requires W.cols == |x|
  {
    seq(W.Rows(), i requires 0 <= i < W.Rows() => Dot(W.cells[i], x))
  }

  /** The mathematical product T W: entry (i, j) sums T[i,k] * W[k,j] over k in index order. */
  function Compose(T: Mat, W: Mat): Mat
    requires T.cols == W.Rows()
  {
    Matrix(seq(T.Rows(), i requires 0 <= i < T.Rows() =>
             seq(W.cols, j requires 0 <= j < W.cols => Dot(T.cells[i], Column(W.cells, j)))),
           W.cols)
  }

  function Transpose(A: Mat): (t: Mat)
    ensures t.Rows() == A.cols && t.cols == A.Rows()
  {
    Matrix(seq(A.cols, k requires 0 <= k < A.cols => Column(A.cells, k)), A.Rows())
  }

  /** `multiply(double[,] W, double[] x)` */
  function MultiplyVector(W: Mat, x: seq<real>): (r: Result<seq<real>>)
    ensures r.Ok? <==> W.cols == |x|
    ensures r.Err? ==> r.error == DimensionMismatch
    ensures r.Ok? ==> |r.value| == W.Rows()
    ensures r.Ok? ==> forall i :: 0 <= i < W.Rows() ==> r.value[i] == Dot(W.cells[i], x)
  {
    if W.cols != |x| then Err(DimensionMismatch) else Ok(Product(W, x))
  }

  /** `multiply(double[,] T, double[,] W)` */
  function MultiplyMatrix(T: Mat, W: Mat): (r: Result<Mat>)
    ensures r.Ok? <==> T.cols == W.Rows()
    ensures r.Err? ==> r.error == DimensionMismatch
    ensures r.Ok? ==> r.value.Rows() == T.Rows() && r.value.cols == W.cols
    ensures r.Ok? ==> forall i, j :: 0 <= i < T.Rows() && 0 <= j < W.cols ==>
                        r.value.cells[i][j] == Dot(T.cells[i], Column(W.cells, j))
  {
    if T.cols != W.Rows() then Err(DimensionMismatch) else Ok(Compose(T, W))
  }

  /**
   * Multiplying by a product equals multiplying twice: (T W) x == T (W x). This is why folding a
   * transfer matrix into the input weights agrees with transforming the features first.
   */
  lemma MultiplyAssociative(T: Mat, W: Mat, x: seq<real>)
    requires T.cols == W.Rows() && W.cols == |x|
    ensures MultiplyMatrix(T, W).Ok?
    ensures MultiplyVector(W, x).Ok?
    ensures MultiplyVector(Compose(T, W), x) == MultiplyVector(T, Product(W, x))
  {
    var wx := Product(W, x);
    var lhs := Product(Compose(T, W), x);
    var rhs := Product(T, wx);
    forall i | 0 <= i < T.Rows() ensures lhs[i] == rhs[i] {
      RowOfProductTimes(T, W, x, i);
    }
    assert lhs == rhs;
  }

  /** a * (b * c) == c * (a * b) */
  lemma Rearrange(a: real, b: real, c: real)
    ensures a * (b * c) == c * (a * b)
  {
  }

  /** The table with entry (k, j) equal to t[k] * (W[k,j] * x[j]). */
  function ProductTable(t: seq<real>, W: Mat, x: seq<real>): (table: seq<seq<real>>)
    requires |t| == W.Rows() && W.cols == |x|
    ensures |table| == |t| && Rectangular(table, |x|)
  {
    seq(W.Rows(), k requires 0 <= k < W.Rows() => Scale(t[k], Mul(W.cells[k], x)))
  }

  lemma ProductTableRows(t: seq<real>, W: Mat, x: seq<real>)
    requires |t| == W.Rows() && W.cols == |x|
    ensures RowSums(ProductTable(t, W, x)) == Mul(t, Product(W, x))
  {
    var table := ProductTable(t, W, x);
    forall k | 0 <= k < W.Rows() ensures RowSums(table)[k] == Mul(t, Product(W, x))[k] {
      SumScale(t[k], Mul(W.cells[k], x));
    }
  }

  lemma ProductTableColumn(t: seq<real>, W: Mat, x: seq<real>, j: nat)
    requires |t| == W.Rows() && W.cols == |x| && j < |x|
    ensures Sum(Column(ProductTable(t, W, x), j)) == Dot(t, Column(W.cells, j)) * x[j]
  {
    var table := ProductTable(t, W, x);
    var col := Column(W.cells, j);
    forall k | 0 <= k < W.Rows() ensures Column(table, j)[k] == Scale(x[j], Mul(t, col))[k] {
      Rearrange(t[k], W.cells[k][j], x[j]);
    }
    assert Column(table, j) == Scale(x[j], Mul(t, col));
    SumScale(x[j], Mul(t, col));
  }

  lemma RowOfProductTimes(T: Mat, W: Mat, x: seq<real>, i: nat)
    requires T.cols == W.Rows() && W.cols == |x| && i < T.Rows()
    ensures Dot(Compose(T, W).cells[i], x) == Dot(T.cells[i], Product(W, x))
  {
    var t := T.cells[i];
    var p := Compose(T, W).cells[i];
    var table := ProductTable(t, W, x);
    SumSwap(table, |x|);
    ProductTableRows(t, W, x);
    forall j | 0 <= j < |x| ensures ColumnSums(table, |x|)[j] == Mul(p, x)[j] {
      ProductTableColumn(t, W, x, j);
    }
    assert ColumnSums(table, |x|) == Mul(p, x);
  }

  /** The table with entry (i, k) equal to x[i] * (A[i,k] * y[k]). */
  function BilinearTable(A: Mat, x: seq<real>, y: seq<real>): (table: seq<seq<real>>)
    requires |x| == A.Rows() && |y| == A.cols
    ensures |table| == |x| && Rectangular(table, |y|)
  {
    seq(A.Rows(), i requires 0 <= i < A.Rows() => Scale(x[i], Mul(A.cells[i], y)))
  }

  lemma BilinearTableColumn(A: Mat, x: seq<real>, y: seq<real>, k: nat)
    requires |x| == A.Rows() && |y| == A.cols && k < |y|
    ensures Sum(Column(BilinearTable(A, x, y), k)) == Dot(Column(A.cells, k), x) * y[k]
  {
    var table := BilinearTable(A, x, y);
    var col := Column(A.cells, k);
    forall i | 0 <= i < A.Rows() ensures Column(table, k)[i] == Scale(y[k], Mul(col, x))[i] {
      Rearrange(x[i], A.cells[i][k], y[k]);
      assert x[i] * A.cells[i][k] == A.cells[i][k] * x[i];
    }
    assert Column(table, k) == Scale(y[k], Mul(col, x));
    SumScale(y[k], Mul(col, x));
  }

  /** x . (A y) == (A^T x) . y */
  lemma DotProductTranspose(A: Mat, x: seq<real>, y: seq<real>)
    requires |x| == A.Rows() && |y| == A.cols
    ensures Dot(x, Product(A, y)) == Dot(Product(Transpose(A), x), y)
  {
    var table := BilinearTable(A, x, y);
    SumSwap(table, |y|);
    BilinearTableRows(A, x, y);
    BilinearTableColumns(A, x, y);
  }

  lemma BilinearTableRows(A: Mat, x: seq<real>, y: seq<real>)
    requires |x| == A.Rows() && |y| == A.cols
    ensures RowSums(BilinearTable(A, x, y)) == Mul(x, Product(A, y))
  {
    var table := BilinearTable(A, x, y);
    forall i | 0 <= i < A.Rows() ensures RowSums(table)[i] == Mul(x, Product(A, y))[i] {
      SumScale(x[i], Mul(A.cells[i], y));
    }
  }

  lemma BilinearTableColumns(A: Mat, x: seq<real>, y: seq<real>)
    requires |x| == A.Rows() && |y| == A.cols
    ensures ColumnSums(BilinearTable(A, x, y), |y|) == Mul(Product(Transpose(A), x), y)
  {
    var table := BilinearTable(A, x, y);
    forall k | 0 <= k < A.cols ensures ColumnSums(table, |y|)[k] == Mul(Product(Transpose(A), x), y)[k] {
      BilinearTableColumn(A, x, y, k);
    }
  }

  /** The quadratic form of Omega Omega^T is never negative: v^T (Omega Omega^T) v == |Omega^T v|^2. */
  lemma GramNonnegative(Omega: Mat, v: seq<real>)
    requires |v| == Omega.Rows()
    ensures 0.0 <= Dot(v, Product(Compose(Omega, Transpose(Omega)), v))
  {
    var Ot := Transpose(Omega);
    var p := Product(Ot, v);
    MultiplyAssociative(Omega, Ot, v);
    assert Product(Compose(Omega, Ot), v) == Product(Omega, p);
    DotProductTranspose(Omega, v, p);
    DotSelf(p);
  }

  /** Entry (i, j) of Omega Omega^T is the inner product of rows i and j of Omega, so it is symmetric. */
  lemma GramSymmetric(Omega: Mat, i: nat, j: nat)
    requires i < Omega.Rows() && j < Omega.Rows()
    ensures Compose(Omega, Transpose(Omega)).cells[i][j] == Dot(Omega.cells[i], Omega.cells[j])
    ensures Compose(Omega, Transpose(Omega)).cells[i][j] == Compose(Omega, Transpose(Omega)).cells[j][i]
  {
    var Ot := Transpose(Omega);
    assert Column(Ot.cells, j) == Omega.cells[j];
    assert Column(Ot.cells, i) == Omega.cells[i];
    DotCommutes(Omega.cells[i], Omega.cells[j]);
  }

  lemma DotCommutes(a: seq<real>, b: seq<real>)
    requires |a| == |b|
    ensures Dot(a, b) == Dot(b, a)
  {
    assert Mul(a, b) == Mul(b, a);
  }

  /**
   * `Row(W, i)`: row i as a vector of W's column count. The model's matrices are values, so the
   * copy the C# method makes can never change with W.
   */
  function Row(W: Mat, i: nat): (row: seq<real>)
    requires i < W.Rows()
    ensures |row| == W.cols
    ensures forall x :: |x| == W.cols ==> MultiplyVector(W, x) == Ok(Product(W, x)) && Product(W, x)[i] == Dot(row, x)
  {
    W.cells[i]
  }

  // ---------------------------------------------------------------------------------------------
  // Reading from JSON

  /** `jW[0].Count`: an index past the end of a SimpleJSON array yields an empty node, of count 0. */
  function FirstRowLength(jW: seq<seq<real>>): nat
  {
    if |jW| == 0 then 0 else |jW[0]|
  }

  /** `FromJSON(JSONArray jW)`: the rows must all have the first row's length. */
  function FromJson(jW: seq<seq<real>>): (r: Result<Mat>)
    ensures r.Ok? <==> Rectangular(jW, FirstRowLength(jW))
    ensures r.Ok? ==> r.value.cells == jW && r.value.cols == FirstRowLength(jW)
    ensures r.Err? ==> exists i :: 0 <= i < |jW| && (forall k :: 0 <= k < i ==> |jW[k]| == FirstRowLength(jW))
                          && r.error == InconsistentMatrix(i, FirstRowLength(jW), |jW[i]|)
  {
    CheckRows(jW, FirstRowLength(jW), 0)
  }

  /** The row loop of FromJSON from row `i` on; it stops at the first row of another length. */
  function CheckRows(jW: seq<seq<real>>, n: nat, i: nat): (r: Result<Mat>)
    requires i <= |jW| && forall k :: 0 <= k < i ==> |jW[k]| == n
    ensures r.Ok? <==> Rectangular(jW, n)
    ensures r.Ok? ==> r.value.cells == jW && r.value.cols == n
    ensures r.Err? ==> exists e :: i <= e < |jW| && (forall k :: 0 <= k < e ==> |jW[k]| == n)
                          && r.error == InconsistentMatrix(e, n, |jW[e]|)
    decreases |jW| - i
  {
    if i == |jW| then Ok(Matrix(jW, n))
    else if |jW[i]| != n then Err(InconsistentMatrix(i, n, |jW[i]|))
    else CheckRows(jW, n, i + 1)
  }
}
