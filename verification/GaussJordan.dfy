/** Matrix inversion by Gauss-Jordan elimination (erasure::rs::invert_matrix). */
module GaussJordan {
  import opened Fields

  type Matrix<T> = seq<seq<T>>

  // z lies in the kernel of m.
  ghost predicate Solves<T>(F: Field<T>, m: Matrix<T>, z: seq<T>)
    requires Shape(m, |m|, |z|)
  {
    forall i :: 0 <= i < |m| ==> Dot(F, m[i], z) == F.zero
  }

  ghost predicate SameSolutions<T(!new)>(F: Field<T>, a: Matrix<T>, b: Matrix<T>, rows: nat, cols: nat) {
    && Shape(a, rows, cols) && Shape(b, rows, cols)
    && forall z {:trigger Solves(F, a, z)} {:trigger Solves(F, b, z)} ::
         |z| == cols ==> (Solves(F, a, z) <==> Solves(F, b, z))
  }

  // ---------------------------------------------------------------------
  // Row operations keep the solutions
  // ---------------------------------------------------------------------

  function Swap<T>(m: Matrix<T>, i: nat, j: nat): Matrix<T>
    requires i < |m| && j < |m|
  {
    m[i := m[j]][j := m[i]]
  }

  lemma SwapKeeps<T(!new)>(F: Field<T>, m: Matrix<T>, rows: nat, cols: nat, i: nat, j: nat)
    requires Shape(m, rows, cols) && i < rows && j < rows
    ensures SameSolutions(F, m, Swap(m, i, j), rows, cols)
  {
    var s := Swap(m, i, j);
    forall z | |z| == cols ensures Solves(F, m, z) <==> Solves(F, s, z) {
      assert forall k :: 0 <= k < rows ==> s[k] == if k == i then m[j] else if k == j then m[i] else m[k];
      assert forall k :: 0 <= k < rows ==> m[k] == if k == i then s[j] else if k == j then s[i] else s[k];
    }
  }

  // Replacing one row keeps a solution if it keeps that row's equation, given
  // the others.
  lemma OneRow<T>(F: Field<T>, m: Matrix<T>, i: nat, row: seq<T>, z: seq<T>)
    requires Shape(m, |m|, |z|) && |row| == |z| && i < |m|
    requires (forall k :: 0 <= k < |m| && k != i ==> Dot(F, m[k], z) == F.zero) ==>
               (Dot(F, m[i], z) == F.zero <==> Dot(F, row, z) == F.zero)
    ensures Solves(F, m, z) <==> Solves(F, m[i := row], z)
  {
    var s := m[i := row];
    assert forall k :: 0 <= k < |m| && k != i ==> s[k] == m[k];
    if Solves(F, s, z) {
      assert Dot(F, s[i], z) == F.zero;
      forall k | 0 <= k < |m| && k != i ensures Dot(F, m[k], z) == F.zero {
        assert Dot(F, s[k], z) == F.zero;
      }
    }
  }

  lemma ScaleKeeps<T(!new)>(F: Field<T>, m: Matrix<T>, rows: nat, cols: nat, i: nat, c: T)
    requires IsField(F) && Shape(m, rows, cols) && i < rows && c != F.zero
    ensures SameSolutions(F, m, m[i := Scale(F, c, m[i])], rows, cols)
  {
    forall z | |z| == cols ensures Solves(F, m, z) <==> Solves(F, m[i := Scale(F, c, m[i])], z) {
      DotScale(F, c, m[i], z);
      MulZero(F, c);
      var d := Dot(F, m[i], z);
      if F.mul(c, d) == F.zero { NoZeroDivisors(F, c, d); }
      OneRow(F, m, i, Scale(F, c, m[i]), z);
    }
  }

  lemma AddKeeps<T(!new)>(F: Field<T>, m: Matrix<T>, rows: nat, cols: nat, i: nat, c: T, p: nat)
    requires IsField(F) && Shape(m, rows, cols) && i < rows && p < rows && i != p
    ensures SameSolutions(F, m, m[i := AddVec(F, m[i], Scale(F, c, m[p]))], rows, cols)
  {
    forall z | |z| == cols ensures Solves(F, m, z) <==> Solves(F, m[i := AddVec(F, m[i], Scale(F, c, m[p]))], z) {
      DotAxpy(F, m[i], c, m[p], z);
      MulZero(F, c);
      assert Laws(F, Dot(F, m[i], z), F.zero, F.zero);
      OneRow(F, m, i, AddVec(F, m[i], Scale(F, c, m[p])), z);
    }
  }

  // ---------------------------------------------------------------------
  // Reduced columns
  // ---------------------------------------------------------------------

  // The first `col` columns are those of the identity.
  ghost predicate Reduced<T>(F: Field<T>, m: Matrix<T>, rows: nat, cols: nat, col: nat) {
    && Shape(m, rows, cols) && col <= rows <= cols
    && forall i, j :: 0 <= i < rows && 0 <= j < col ==> m[i][j] == if i == j then F.one else F.zero
  }

  // Column `col` is done in the rows before `upto`, and row `col` is the pivot row.
  ghost predicate Clearing<T>(F: Field<T>, m: Matrix<T>, rows: nat, cols: nat, col: nat, upto: nat) {
    && Reduced(F, m, rows, cols, col) && col < rows
    && m[col][col] == F.one
    && forall i :: 0 <= i < rows && i < upto && i != col ==> m[i][col] == F.zero
  }

  lemma SwapReduced<T(!new)>(F: Field<T>, m: Matrix<T>, rows: nat, cols: nat, col: nat, p: nat)
    requires Reduced(F, m, rows, cols, col) && col <= p < rows
    ensures Reduced(F, Swap(m, col, p), rows, cols, col)
  {
  }

  lemma ScaleReduced<T(!new)>(F: Field<T>, m: Matrix<T>, rows: nat, cols: nat, col: nat)
    requires IsField(F) && Reduced(F, m, rows, cols, col) && col < rows && m[col][col] != F.zero
    ensures Clearing(F, m[col := Scale(F, F.inv(m[col][col]), m[col])], rows, cols, col, 0)
  {
    var c := F.inv(m[col][col]);
    MulZero(F, c);
    assert Laws(F, m[col][col], c, c);
  }

  lemma AddReduced<T(!new)>(F: Field<T>, m: Matrix<T>, rows: nat, cols: nat, col: nat, i: nat)
    requires IsField(F) && Clearing(F, m, rows, cols, col, i) && i < rows && i != col
    ensures Clearing(F, m[i := AddVec(F, m[i], Scale(F, m[i][col], m[col]))], rows, cols, col, i + 1)
  {
    var c := m[i][col];
    var s := m[i := AddVec(F, m[i], Scale(F, c, m[col]))];
    MulZero(F, c);
    forall j | 0 <= j < col ensures s[i][j] == m[i][j] {
      assert m[col][j] == F.zero;
      assert Laws(F, m[i][j], F.zero, F.zero);
    }
    assert Laws(F, c, c, c);
  }

  // Column `col` is done as soon as every row has been cleared.
  lemma ClearedReduced<T>(F: Field<T>, m: Matrix<T>, rows: nat, cols: nat, col: nat)
    requires Clearing(F, m, rows, cols, col, rows)
    ensures Reduced(F, m, rows, cols, col + 1)
  {
  }

  // ---------------------------------------------------------------------
  // What the first and the last augmented matrix mean
  // ---------------------------------------------------------------------

  function Augmented<T>(F: Field<T>, m: Matrix<T>): (r: Matrix<T>)
    requires Shape(m, |m|, |m|)
    ensures Shape(r, |m|, 2 * |m|)
  {
    seq(|m|, i requires 0 <= i < |m| => m[i] + Unit(F, |m|, i))
  }

  function RightHalf<T>(m: Matrix<T>, n: nat): (r: Matrix<T>)
    requires Shape(m, n, 2 * n)
    ensures Shape(r, n, n)
  {
    seq(n, i requires 0 <= i < n => m[i][n..])
  }

  lemma AugmentedRow<T(!new)>(F: Field<T>, row: seq<T>, n: nat, i: nat, x: seq<T>, y: seq<T>)
    requires IsField(F) && |row| == |x| == |y| == n && i < n
    ensures Dot(F, row + Unit(F, n, i), x + y) == F.zero <==> Dot(F, row, x) == y[i]
  {
    DotAppend(F, row, Unit(F, n, i), x, y);
    DotUnit(F, n, i, y);
    SumZero(F, Dot(F, row, x), y[i]);
  }

  lemma AugmentedMeans<T(!new)>(F: Field<T>, m: Matrix<T>, x: seq<T>, y: seq<T>)
    requires IsField(F) && Shape(m, |m|, |m|) && |x| == |m| && |y| == |m|
    ensures Solves(F, Augmented(F, m), x + y) <==> MatVec(F, m, x) == y
  {
    var a, r := Augmented(F, m), MatVec(F, m, x);
    forall i | 0 <= i < |m| ensures Dot(F, a[i], x + y) == F.zero <==> r[i] == y[i] {
      AugmentedRow(F, m[i], |m|, i, x, y);
    }
    if Solves(F, a, x + y) {
      assert forall i :: 0 <= i < |m| ==> r[i] == y[i];
    }
  }

  lemma ReducedMeans<T(!new)>(F: Field<T>, m: Matrix<T>, n: nat, x: seq<T>, y: seq<T>)
    requires IsField(F) && Reduced(F, m, n, 2 * n, n) && |x| == n && |y| == n
    ensures Solves(F, m, x + y) <==> MatVec(F, RightHalf(m, n), y) == x
  {
    var b := RightHalf(m, n);
    forall i | 0 <= i < n ensures Dot(F, m[i], x + y) == F.zero <==> Dot(F, b[i], y) == x[i] {
      assert m[i] == Unit(F, n, i) + b[i];
      DotAppend(F, Unit(F, n, i), b[i], x, y);
      DotUnit(F, n, i, x);
      SumZero(F, x[i], Dot(F, b[i], y));
    }
    if Solves(F, m, x + y) {
      assert MatVec(F, b, y) == x;
    }
  }

  lemma ReducedInverts<T(!new)>(F: Field<T>, mat: Matrix<T>, m: Matrix<T>)
    requires IsField(F) && Shape(mat, |mat|, |mat|)
    requires Reduced(F, m, |mat|, 2 * |mat|, |mat|)
    requires SameSolutions(F, Augmented(F, mat), m, |mat|, 2 * |mat|)
    ensures Inverse(F, mat, RightHalf(m, |mat|))
  {
    var n := |mat|;
    forall x, y | |x| == n && |y| == n
      ensures MatVec(F, mat, x) == y <==> MatVec(F, RightHalf(m, n), y) == x
    {
      AugmentedMeans(F, mat, x, y);
      ReducedMeans(F, m, n, x, y);
      assert |x + y| == 2 * n;
    }
  }

  // The kernel vector read off a column without pivot.
  function Dependency<T>(F: Field<T>, m: Matrix<T>, n: nat, col: nat): (x: seq<T>)
    requires Shape(m, n, 2 * n) && col < n
    ensures |x| == n
  {
    seq(n, j requires 0 <= j < n => if j < col then m[j][col] else if j == col then F.one else F.zero)
  }

  lemma DependencySolves<T(!new)>(F: Field<T>, m: Matrix<T>, n: nat, col: nat)
    requires IsField(F) && Reduced(F, m, n, 2 * n, col) && col < n
    requires forall i :: col <= i < n ==> m[i][col] == F.zero
    ensures Solves(F, m, Dependency(F, m, n, col) + Zeros(F, n))
  {
    forall i | 0 <= i < n ensures Dot(F, m[i], Dependency(F, m, n, col) + Zeros(F, n)) == F.zero {
      DependencyRow(F, m, n, col, i);
    }
  }

  // One row against the dependency: cut both after column `col`.
  lemma DependencyRow<T(!new)>(F: Field<T>, m: Matrix<T>, n: nat, col: nat, i: nat)
    requires IsField(F) && Reduced(F, m, n, 2 * n, col) && col < n && i < n
    requires col <= i ==> m[i][col] == F.zero
    ensures Dot(F, m[i], Dependency(F, m, n, col) + Zeros(F, n)) == F.zero
  {
    var x := Dependency(F, m, n, col);
    var left, right := m[i][..n], m[i][n..];
    assert m[i] == left + right;
    DotAppend(F, left, right, x, Zeros(F, n));
    DotZeros(F, n, right);
    assert Laws(F, Dot(F, left, x), F.zero, F.zero);
    // Past column `col` the vector is zero.
    var xl, xr := x[..col + 1], x[col + 1..];
    assert x == xl + xr && xr == Zeros(F, n - col - 1);
    assert left == left[..col + 1] + left[col + 1..];
    DotAppend(F, left[..col + 1], left[col + 1..], xl, xr);
    DotZeros(F, n - col - 1, left[col + 1..]);
    assert Laws(F, Dot(F, left[..col + 1], xl), F.zero, F.zero);
    assert left[..col + 1] == m[i][..col + 1];
    DependencyHead(F, m, n, col, i);
  }

  // Up to column `col`, row i has a one at i (if i < col) and m[i][col] at col.
  lemma DependencyHead<T(!new)>(F: Field<T>, m: Matrix<T>, n: nat, col: nat, i: nat)
    requires IsField(F) && Reduced(F, m, n, 2 * n, col) && col < n && i < n
    requires col <= i ==> m[i][col] == F.zero
    ensures Dot(F, m[i][..col + 1], Dependency(F, m, n, col)[..col + 1]) == F.zero
  {
    var l, xl := m[i][..col + 1], Dependency(F, m, n, col)[..col + 1];
    if i < col {
      assert l[..col] == Unit(F, col, i);
      DotUnit(F, col, i, xl[..col]);
      assert Laws(F, m[i][col], F.one, F.one);
    } else {
      assert l[..col] == Zeros(F, col);
      DotZeros(F, col, xl[..col]);
      MulZero(F, F.one);
      assert Laws(F, F.zero, F.zero, F.zero);
    }
    assert Dot(F, l, xl) == F.add(Dot(F, l[..col], xl[..col]), F.mul(l[col], xl[col]));
  }

  lemma NoPivotSingular<T(!new)>(F: Field<T>, mat: Matrix<T>, m: Matrix<T>, col: nat)
    requires IsField(F) && Shape(mat, |mat|, |mat|) && col < |mat|
    requires Reduced(F, m, |mat|, 2 * |mat|, col)
    requires SameSolutions(F, Augmented(F, mat), m, |mat|, 2 * |mat|)
    requires forall i :: col <= i < |mat| ==> m[i][col] == F.zero
    ensures !TrivialKernel(F, mat)
  {
    var n := |mat|;
    var x := Dependency(F, m, n, col);
    DependencySolves(F, m, n, col);
    AugmentedMeans(F, mat, x, Zeros(F, n));
    assert Solves(F, m, x + Zeros(F, n));
    assert MatVec(F, mat, x) == Zeros(F, n);
    assert x[col] == F.one && Zeros(F, n)[col] == F.zero;
  }

  // ---------------------------------------------------------------------
  // The algorithm
  // ---------------------------------------------------------------------

  datatype Inversion<T> = Inverted(matrix: Matrix<T>) | NotSquare | Singular

  method ScaleRow<T(!new)>(F: Field<T>, c: T, row: seq<T>) returns (r: seq<T>)
    requires IsField(F)
    ensures r == Scale(F, c, row)
  {
    r := row;
    for j := 0 to |row|
      invariant |r| == |row|
      invariant forall t :: 0 <= t < j ==> r[t] == F.mul(c, row[t])
      invariant forall t :: j <= t < |row| ==> r[t] == row[t]
    {
      r := r[j := F.mul(r[j], c)];
      assert Laws(F, row[j], c, c);
    }
  }

  method AddScaledRow<T(!new)>(F: Field<T>, row: seq<T>, c: T, pivot: seq<T>) returns (r: seq<T>)
    requires |row| == |pivot|
    ensures r == AddVec(F, row, Scale(F, c, pivot))
  {
    r := row;
    for j := 0 to |row|
      invariant |r| == |row|
      invariant forall t :: 0 <= t < j ==> r[t] == F.add(row[t], F.mul(c, pivot[t]))
      invariant forall t :: j <= t < |row| ==> r[t] == row[t]
    {
      r := r[j := F.add(r[j], F.mul(c, pivot[j]))];
    }
  }

  method BuildAugmented<T>(F: Field<T>, mat: Matrix<T>) returns (aug: Matrix<T>)
    requires Shape(mat, |mat|, |mat|)
    ensures aug == Augmented(F, mat)
  {
    var n := |mat|;
    aug := seq(n, _ => Zeros(F, 2 * n));
    for i := 0 to n
      invariant |aug| == n
      invariant forall k :: 0 <= k < i ==> aug[k] == mat[k] + Unit(F, n, k)
      invariant forall k :: i <= k < n ==> aug[k] == Zeros(F, 2 * n)
    {
      var row := aug[i];
      for j := 0 to n
        invariant |row| == 2 * n
        invariant forall t :: 0 <= t < j ==> row[t] == mat[i][t]
        invariant forall t :: j <= t < 2 * n ==> row[t] == F.zero
      {
        row := row[j := mat[i][j]];
      }
      row := row[n + i := F.one];
      assert row == mat[i] + Unit(F, n, i);
      aug := aug[i := row];
    }
  }

  // First row at or below `col` with a nonzero entry there.
  method FindPivot<T(==)>(F: Field<T>, m: Matrix<T>, col: nat) returns (pivot: nat)
    requires forall i :: 0 <= i < |m| ==> col < |m[i]|
    requires col <= |m|
    ensures col <= pivot <= |m|
    ensures pivot < |m| ==> m[pivot][col] != F.zero
    ensures forall i :: col <= i < pivot ==> m[i][col] == F.zero
  {
    pivot := col;
    while pivot < |m| && m[pivot][col] == F.zero
      invariant col <= pivot <= |m|
      invariant forall i :: col <= i < pivot ==> m[i][col] == F.zero
    {
      pivot := pivot + 1;
    }
  }

  // Clears column `col` in every row but the pivot row.
  method ClearColumn<T(==, !new)>(F: Field<T>, m: Matrix<T>, rows: nat, cols: nat, col: nat) returns (r: Matrix<T>)
    requires IsField(F) && Clearing(F, m, rows, cols, col, 0)
    ensures Reduced(F, r, rows, cols, col + 1) && SameSolutions(F, m, r, rows, cols)
  {
    r := m;
    for i := 0 to rows
      invariant Clearing(F, r, rows, cols, col, i) && SameSolutions(F, m, r, rows, cols)
    {
      if i != col && r[i][col] != F.zero {
        AddReduced(F, r, rows, cols, col, i);
        AddKeeps(F, r, rows, cols, i, r[i][col], col);
        ghost var before := r;
        var row := AddScaledRow(F, r[i], r[i][col], r[col]);
        r := r[i := row];
        Transitive(F, m, before, r, rows, cols);
      }
    }
    ClearedReduced(F, r, rows, cols, col);
  }

  lemma Transitive<T(!new)>(F: Field<T>, a: Matrix<T>, b: Matrix<T>, c: Matrix<T>, rows: nat, cols: nat)
    requires SameSolutions(F, a, b, rows, cols) && SameSolutions(F, b, c, rows, cols)
    ensures SameSolutions(F, a, c, rows, cols)
  {
    forall z | |z| == cols ensures Solves(F, a, z) <==> Solves(F, c, z) {
      assert Solves(F, a, z) <==> Solves(F, b, z);
    }
  }

  /** Inversion is sound and complete over every field: it returns a two-sided
      inverse exactly when the square matrix has a trivial kernel, and reports a
      singular matrix otherwise. */
  method InvertMatrix<T(==, !new)>(F: Field<T>, mat: Matrix<T>) returns (r: Inversion<T>)
    requires IsField(F)
    ensures r.NotSquare? <==> !(|mat| > 0 && Shape(mat, |mat|, |mat|))
    ensures r.Inverted? ==> Inverse(F, mat, r.matrix) && TrivialKernel(F, mat)
    ensures r.Singular? ==> !TrivialKernel(F, mat)
  {
    var n := |mat|;
    if n == 0 || exists i :: 0 <= i < n && |mat[i]| != n {
      return NotSquare;
    }
    var aug := BuildAugmented(F, mat);
    ghost var init := aug;
    for col := 0 to n
      invariant Reduced(F, aug, n, 2 * n, col) && SameSolutions(F, init, aug, n, 2 * n)
    {
      var pivot := FindPivot(F, aug, col);
      if pivot >= n {
        NoPivotSingular(F, mat, aug, col);
        return Singular;
      }
      SwapReduced(F, aug, n, 2 * n, col, pivot);
      SwapKeeps(F, aug, n, 2 * n, col, pivot);
      var swapped := if pivot != col then Swap(aug, col, pivot) else aug;
      assert swapped == Swap(aug, col, pivot);
      // The inverse of the pivot is never zero, so the second check for a
      // singular matrix in the source cannot fire.
      InvNonzero(F, swapped[col][col]);
      ScaleReduced(F, swapped, n, 2 * n, col);
      ScaleKeeps(F, swapped, n, 2 * n, col, F.inv(swapped[col][col]));
      var row := ScaleRow(F, F.inv(swapped[col][col]), swapped[col]);
      var scaled := swapped[col := row];
      var cleared := ClearColumn(F, scaled, n, 2 * n, col);
      Transitive(F, init, aug, swapped, n, 2 * n);
      Transitive(F, init, swapped, scaled, n, 2 * n);
      Transitive(F, init, scaled, cleared, n, 2 * n);
      aug := cleared;
    }
    ReducedInverts(F, mat, aug);
    InverseKernel(F, mat, RightHalf(aug, n));
    return Inverted(RightHalf(aug, n));
  }
}
