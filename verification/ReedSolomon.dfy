/** Systematic Reed-Solomon coding (erasure::rs) over any field of characteristic two
    with enough different points; Gf256 supplies the field of the source. */
module ReedSolomon {
  import opened Fields
  import opened GaussJordan
  import opened Polynomials
  import opened Validators

  // The field, the evaluation point of each shard, and how many shards there
  // are points for.
  datatype Codec<!T> = Codec(F: Field<T>, point: nat -> T, limit: nat)

  ghost predicate GoodCodec<T(!new)>(C: Codec<T>) {
    && IsField(C.F)
    && forall r, s :: 0 <= r < s < C.limit ==> C.point(r) != C.point(s)
  }

  datatype Config = Config(k: nat, n: nat, size: nat)

  predicate ValidConfig<T>(C: Codec<T>, cfg: Config) {
    cfg.k > 0 && cfg.n > cfg.k && cfg.size > 0 && cfg.n <= C.limit
  }

  function PaddedLen(cfg: Config): nat { cfg.k * cfg.size }

  datatype RsError = BadConfig | TooLong | Insufficient | BadIndex | BadLength | SingularMatrix
  datatype RsResult<T> = Ok(value: T) | Err(error: RsError)

  // ---------------------------------------------------------------------
  // What the shards of a payload are
  // ---------------------------------------------------------------------

  // Byte `t` of every shard.
  function Column<T>(shards: seq<seq<T>>, t: nat): (r: seq<T>)
    requires forall j :: 0 <= j < |shards| ==> t < |shards[j]|
    ensures |r| == |shards|
  {
    seq(|shards|, j requires 0 <= j < |shards| => shards[j][t])
  }

  // The word is the values of the polynomial `c` at the points 0, 1, 2, ...
  ghost predicate Interpolates<T>(C: Codec<T>, c: seq<T>, word: seq<T>) {
    forall r :: 0 <= r < |word| ==> word[r] == Eval(C.F, c, C.point(r))
  }

  // The word lies on a polynomial with `k` coefficients.
  ghost predicate OnPolynomial<T(!new)>(C: Codec<T>, word: seq<T>, k: nat) {
    exists c :: |c| == k && Interpolates(C, c, word)
  }

  // n shards, each byte column of which lies on a polynomial of degree below k.
  ghost predicate Codeword<T(!new)>(C: Codec<T>, cfg: Config, shards: seq<seq<T>>) {
    && Shape(shards, cfg.n, cfg.size)
    && forall t :: 0 <= t < cfg.size ==> OnPolynomial(C, Column(shards, t), cfg.k)
  }

  function Concat<T>(parts: seq<seq<T>>): seq<T> {
    if parts == [] then [] else Concat(parts[..|parts| - 1]) + parts[|parts| - 1]
  }

  // The first k shards are the payload, padded with zeros.
  ghost predicate Carries<T>(C: Codec<T>, cfg: Config, shards: seq<seq<T>>, payload: seq<T>) {
    && cfg.k <= |shards| && |payload| <= PaddedLen(cfg)
    && Concat(shards[..cfg.k]) == payload + Zeros(C.F, PaddedLen(cfg) - |payload|)
  }

  lemma EvalAdd<T(!new)>(F: Field<T>, c: seq<T>, d: seq<T>, x: T)
    requires IsField(F) && |c| == |d|
    ensures Eval(F, AddVec(F, c, d), x) == F.add(Eval(F, c, x), Eval(F, d, x))
  {
    var p := Powers(F, x, |c|);
    DotIsEval(F, x, c);
    DotIsEval(F, x, d);
    DotIsEval(F, x, AddVec(F, c, d));
    DotComm(F, p, c);
    DotComm(F, p, d);
    DotComm(F, p, AddVec(F, c, d));
    DotAdd(F, c, d, p);
  }

  function Points<T>(C: Codec<T>, rows: seq<nat>): (r: seq<T>)
    ensures |r| == |rows|
  {
    seq(|rows|, i requires 0 <= i < |rows| => C.point(rows[i]))
  }

  ghost predicate DistinctRows(rows: seq<nat>, n: nat) {
    && (forall i :: 0 <= i < |rows| ==> rows[i] < n)
    && Distinct(rows)
  }

  lemma PointsDistinct<T(!new)>(C: Codec<T>, rows: seq<nat>, n: nat)
    requires GoodCodec(C) && n <= C.limit && DistinctRows(rows, n)
    ensures Distinct(Points(C, rows))
  {
    forall i, j | 0 <= i < j < |rows| ensures C.point(rows[i]) != C.point(rows[j]) {
      if rows[i] < rows[j] {
        assert C.point(rows[i]) != C.point(rows[j]);
      } else {
        assert C.point(rows[j]) != C.point(rows[i]);
      }
    }
  }

  /** Two polynomials with k coefficients that agree at k points are the same. */
  lemma SamePolynomial<T(!new)>(C: Codec<T>, c: seq<T>, d: seq<T>, rows: seq<nat>)
    requires GoodCodec(C) && |c| == |d| == |rows| && DistinctRows(rows, C.limit)
    requires forall i :: 0 <= i < |rows| ==> Eval(C.F, c, C.point(rows[i])) == Eval(C.F, d, C.point(rows[i]))
    ensures c == d
  {
    var F, xs, s := C.F, Points(C, rows), AddVec(C.F, c, d);
    PointsDistinct(C, rows, C.limit);
    forall i | 0 <= i < |xs| ensures Eval(F, s, xs[i]) == F.zero {
      EvalAdd(F, c, d, xs[i]);
      SumZero(F, Eval(F, c, xs[i]), Eval(F, d, xs[i]));
    }
    ManyRoots(F, s, xs);
    forall i | 0 <= i < |c| ensures c[i] == d[i] {
      assert s[i] == F.zero;
      SumZero(F, c[i], d[i]);
    }
  }

  /** Any k shards determine the whole codeword. */
  lemma CodewordDetermined<T(!new)>(C: Codec<T>, cfg: Config, a: seq<seq<T>>, b: seq<seq<T>>, rows: seq<nat>)
    requires GoodCodec(C) && ValidConfig(C, cfg) && Codeword(C, cfg, a) && Codeword(C, cfg, b)
    requires |rows| == cfg.k && DistinctRows(rows, cfg.n)
    requires forall i :: 0 <= i < |rows| ==> a[rows[i]] == b[rows[i]]
    ensures a == b
  {
    forall r, t | 0 <= r < cfg.n && 0 <= t < cfg.size ensures a[r][t] == b[r][t] {
      var x, y := Column(a, t), Column(b, t);
      var c :| |c| == cfg.k && Interpolates(C, c, x);
      var d :| |d| == cfg.k && Interpolates(C, d, y);
      forall i | 0 <= i < |rows| ensures Eval(C.F, c, C.point(rows[i])) == Eval(C.F, d, C.point(rows[i])) {
        assert x[rows[i]] == y[rows[i]];
      }
      SamePolynomial(C, c, d, rows);
      assert x[r] == y[r];
    }
    forall r | 0 <= r < cfg.n ensures a[r] == b[r] {
      assert forall t :: 0 <= t < cfg.size ==> a[r][t] == b[r][t];
    }
  }

  // ---------------------------------------------------------------------
  // Matrix product
  // ---------------------------------------------------------------------

  function Col<T>(b: Matrix<T>, j: nat): (r: seq<T>)
    requires forall t :: 0 <= t < |b| ==> j < |b[t]|
    ensures |r| == |b|
  {
    seq(|b|, t requires 0 <= t < |b| => b[t][j])
  }

  // Entry (i, j) is row i of a times column j of b.
  ghost predicate IsProduct<T>(F: Field<T>, a: Matrix<T>, b: Matrix<T>, rows: nat, cols: nat, out: Matrix<T>) {
    && Shape(a, rows, |b|) && Shape(b, |b|, cols) && Shape(out, rows, cols)
    && forall i, j :: 0 <= i < rows && 0 <= j < cols ==> out[i][j] == Dot(F, a[i], Col(b, j))
  }

  method MatMul<T>(F: Field<T>, a: Matrix<T>, b: Matrix<T>, cols: nat) returns (out: Matrix<T>)
    requires Shape(a, |a|, |b|) && Shape(b, |b|, cols)
    ensures IsProduct(F, a, b, |a|, cols, out)
  {
    out := seq(|a|, _ => Zeros(F, cols));
    for i := 0 to |a|
      invariant Shape(out, |a|, cols)
      invariant forall r, j :: 0 <= r < i && 0 <= j < cols ==> out[r][j] == Dot(F, a[r], Col(b, j))
    {
      var row := out[i];
      for j := 0 to cols
        invariant |row| == cols
        invariant forall s :: 0 <= s < j ==> row[s] == Dot(F, a[i], Col(b, s))
      {
        var sum := F.zero;
        for t := 0 to |b|
          invariant sum == Dot(F, a[i][..t], Col(b, j)[..t])
        {
          assert a[i][..t + 1][..t] == a[i][..t] && Col(b, j)[..t + 1][..t] == Col(b, j)[..t];
          sum := F.add(sum, F.mul(a[i][t], b[t][j]));
        }
        assert a[i][..|b|] == a[i] && Col(b, j)[..|b|] == Col(b, j);
        row := row[j := sum];
      }
      out := out[i := row];
    }
  }

  function Prefix<T>(b: Matrix<T>, m: nat): (r: Matrix<T>)
    requires forall t :: 0 <= t < |b| ==> m <= |b[t]|
    ensures Shape(r, |b|, m)
  {
    seq(|b|, t requires 0 <= t < |b| => b[t][..m])
  }

  lemma AppliedPrefix<T(!new)>(F: Field<T>, b: Matrix<T>, d: seq<T>, m: nat)
    requires IsField(F) && Shape(b, |b|, |d|) && m < |d|
    ensures MatVec(F, Prefix(b, m + 1), d[..m + 1])
            == AddVec(F, MatVec(F, Prefix(b, m), d[..m]), Scale(F, d[m], Col(b, m)))
  {
    forall t | 0 <= t < |b|
      ensures Dot(F, b[t][..m + 1], d[..m + 1]) == F.add(Dot(F, b[t][..m], d[..m]), F.mul(d[m], b[t][m]))
    {
      assert b[t][..m + 1][..m] == b[t][..m] && d[..m + 1][..m] == d[..m];
      assert Laws(F, b[t][m], d[m], d[m]);
    }
  }

  lemma {:induction false} ProductPrefix<T(!new)>(F: Field<T>, w: seq<T>, b: Matrix<T>, e: seq<T>, d: seq<T>, m: nat)
    requires IsField(F) && |w| == |b| && |e| == |d| && Shape(b, |b|, |d|) && m <= |d|
    requires forall j :: 0 <= j < |d| ==> e[j] == Dot(F, w, Col(b, j))
    ensures Dot(F, e[..m], d[..m]) == Dot(F, w, MatVec(F, Prefix(b, m), d[..m]))
    decreases m
  {
    if m == 0 {
      assert MatVec(F, Prefix(b, m), d[..m]) == Zeros(F, |b|);
      DotZeros(F, |b|, w);
    } else {
      ProductPrefix(F, w, b, e, d, m - 1);
      AppliedPrefix(F, b, d, m - 1);
      DotAxpyRight(F, w, MatVec(F, Prefix(b, m - 1), d[..m - 1]), d[m - 1], Col(b, m - 1));
      assert e[..m][..m - 1] == e[..m - 1] && d[..m][..m - 1] == d[..m - 1];
      assert Laws(F, e[m - 1], d[m - 1], d[m - 1]);
    }
  }

  /** Applying a product is applying one factor after the other. */
  lemma ProductApplies<T(!new)>(F: Field<T>, a: Matrix<T>, b: Matrix<T>, rows: nat, cols: nat, out: Matrix<T>,
                                d: seq<T>, i: nat)
    requires IsField(F) && IsProduct(F, a, b, rows, cols, out) && |d| == cols && i < rows
    ensures Dot(F, out[i], d) == Dot(F, a[i], MatVec(F, b, d))
  {
    ProductPrefix(F, a[i], b, out[i], d, cols);
    assert out[i][..cols] == out[i] && d[..cols] == d;
    assert Prefix(b, cols) == b by {
      assert forall t :: 0 <= t < |b| ==> b[t][..cols] == b[t];
    }
  }

  // ---------------------------------------------------------------------
  // The encoding matrix
  // ---------------------------------------------------------------------

  // Whatever the data, the matrix gives a word that starts with the data and
  // lies on a polynomial with k coefficients.
  ghost predicate EncodingMatrix<T(!new)>(C: Codec<T>, k: nat, n: nat, e: Matrix<T>) {
    && Shape(e, n, k) && k <= n
    && forall d {:trigger MatVec(C.F, e, d)} :: |d| == k ==>
         OnPolynomial(C, MatVec(C.F, e, d), k) && MatVec(C.F, e, d)[..k] == d
  }

  function FirstPoints<T>(C: Codec<T>, n: nat): (r: seq<T>)
    ensures |r| == n
  {
    seq(n, i requires 0 <= i < n => C.point(i))
  }

  method BuildVandermonde<T(!new)>(C: Codec<T>, rows: nat, cols: nat) returns (v: Matrix<T>)
    requires IsField(C.F)
    ensures v == Vandermonde(C.F, FirstPoints(C, rows), cols)
  {
    v := [];
    for r := 0 to rows
      invariant |v| == r && forall i :: 0 <= i < r ==> v[i] == Powers(C.F, C.point(i), cols)
    {
      var row := [];
      for c := 0 to cols
        invariant |row| == c && forall j :: 0 <= j < c ==> row[j] == Pow(C.F, C.point(r), j)
      {
        var p := PowBySquaring(C.F, C.point(r), c);
        row := row + [p];
      }
      v := v + [row];
    }
  }

  lemma ProductRow<T(!new)>(C: Codec<T>, k: nat, n: nat, v: Matrix<T>, b: Matrix<T>, e: Matrix<T>, d: seq<T>, r: nat)
    requires IsField(C.F) && v == Vandermonde(C.F, FirstPoints(C, n), k) && |d| == k && r < n
    requires Shape(b, k, k) && IsProduct(C.F, v, b, n, k, e)
    ensures Dot(C.F, e[r], d) == Dot(C.F, v[r], MatVec(C.F, b, d)) == Eval(C.F, MatVec(C.F, b, d), C.point(r))
  {
    ProductApplies(C.F, v, b, n, k, e, d, r);
    assert v[r] == Powers(C.F, C.point(r), k);
    DotIsEval(C.F, C.point(r), MatVec(C.F, b, d));
  }

  lemma TopUndone<T(!new)>(F: Field<T>, v: Matrix<T>, k: nat, b: Matrix<T>, d: seq<T>, r: nat)
    requires r < k <= |v| && |d| == k && Inverse(F, v[..k], b)
    ensures |v[r]| == k && Shape(b, k, k) && Dot(F, v[r], MatVec(F, b, d)) == d[r]
  {
    InverseUndoes(F, v[..k], b, d);
    assert v[..k][r] == v[r];
    assert MatVec(F, v[..k], MatVec(F, b, d))[r] == Dot(F, v[r], MatVec(F, b, d));
  }

  // A product of a Vandermonde matrix and the inverse of its top encodes.
  lemma ProductEncodes<T(!new)>(C: Codec<T>, k: nat, n: nat, v: Matrix<T>, b: Matrix<T>, e: Matrix<T>)
    requires IsField(C.F) && k <= n && v == Vandermonde(C.F, FirstPoints(C, n), k)
    requires Inverse(C.F, v[..k], b) && IsProduct(C.F, v, b, n, k, e)
    ensures EncodingMatrix(C, k, n, e)
  {
    forall d | |d| == k ensures OnPolynomial(C, MatVec(C.F, e, d), k) && MatVec(C.F, e, d)[..k] == d {
      forall r | 0 <= r < n ensures MatVec(C.F, e, d)[r] == Eval(C.F, MatVec(C.F, b, d), C.point(r)) {
        ProductRow(C, k, n, v, b, e, d, r);
      }
      assert Interpolates(C, MatVec(C.F, b, d), MatVec(C.F, e, d));
      forall r | 0 <= r < k ensures MatVec(C.F, e, d)[r] == d[r] {
        ProductRow(C, k, n, v, b, e, d, r);
        TopUndone(C.F, v, k, b, d, r);
      }
    }
  }

  /** The matrix can always be built: the top of the Vandermonde matrix is never
      singular, because its points differ. */
  method BuildEncodingMatrix<T(==, !new)>(C: Codec<T>, n: nat, k: nat) returns (e: Matrix<T>)
    requires GoodCodec(C) && 0 < k <= n <= C.limit
    ensures EncodingMatrix(C, k, n, e)
  {
    var v := BuildVandermonde(C, n, k);
    assert v[..k] == Vandermonde(C.F, FirstPoints(C, k), k);
    VandermondeKernel(C.F, FirstPoints(C, k));
    var r := InvertMatrix(C.F, v[..k]);
    e := MatMul(C.F, v, r.matrix, k);
    ProductEncodes(C, k, n, v, r.matrix, e);
  }

  lemma DotUnitRight<T(!new)>(F: Field<T>, row: seq<T>, j: nat)
    requires IsField(F) && j < |row|
    ensures Dot(F, row, Unit(F, |row|, j)) == row[j]
  {
    DotComm(F, row, Unit(F, |row|, j));
    DotUnit(F, |row|, j, row);
  }

  /** The top k rows are the identity. */
  lemma TopIsIdentity<T(!new)>(C: Codec<T>, k: nat, n: nat, e: Matrix<T>, r: nat)
    requires IsField(C.F) && EncodingMatrix(C, k, n, e) && r < k
    ensures e[r] == Unit(C.F, k, r)
  {
    forall j | 0 <= j < k ensures e[r][j] == Unit(C.F, k, r)[j] {
      DotUnitRight(C.F, e[r], j);
      assert MatVec(C.F, e, Unit(C.F, k, j))[..k][r] == Dot(C.F, e[r], Unit(C.F, k, j));
    }
  }

  function Submatrix<T>(m: Matrix<T>, rows: seq<nat>): (r: Matrix<T>)
    requires forall i :: 0 <= i < |rows| ==> rows[i] < |m|
    ensures |r| == |rows|
  {
    seq(|rows|, i requires 0 <= i < |rows| => m[rows[i]])
  }

  // A polynomial that vanishes at k points is zero, so is the word it gives.
  lemma VanishingWord<T(!new)>(C: Codec<T>, k: nat, word: seq<T>, rows: seq<nat>)
    requires GoodCodec(C) && OnPolynomial(C, word, k) && |word| <= C.limit
    requires |rows| == k && DistinctRows(rows, |word|)
    requires forall i :: 0 <= i < k ==> word[rows[i]] == C.F.zero
    ensures word == Zeros(C.F, |word|)
  {
    var c :| |c| == k && Interpolates(C, c, word);
    forall i | 0 <= i < k ensures Eval(C.F, c, C.point(rows[i])) == Eval(C.F, Zeros(C.F, k), C.point(rows[i])) {
      EvalZeros(C.F, k, C.point(rows[i]));
    }
    SamePolynomial(C, c, Zeros(C.F, k), rows);
    forall r | 0 <= r < |word| ensures word[r] == C.F.zero {
      EvalZeros(C.F, k, C.point(r));
    }
  }

  /** Every k different rows of the encoding matrix form an invertible matrix. */
  lemma AnyRowsInvertible<T(!new)>(C: Codec<T>, k: nat, n: nat, e: Matrix<T>, rows: seq<nat>)
    requires GoodCodec(C) && EncodingMatrix(C, k, n, e) && n <= C.limit
    requires |rows| == k && DistinctRows(rows, n)
    ensures TrivialKernel(C.F, Submatrix(e, rows))
  {
    var s := Submatrix(e, rows);
    forall d | |d| == k && MatVec(C.F, s, d) == Zeros(C.F, k) ensures d == Zeros(C.F, k) {
      var word := MatVec(C.F, e, d);
      forall i | 0 <= i < k ensures word[rows[i]] == C.F.zero {
        assert MatVec(C.F, s, d)[i] == Dot(C.F, s[i], d);
      }
      VanishingWord(C, k, word, rows);
      assert word[..k] == Zeros(C.F, k);
    }
  }

  // ---------------------------------------------------------------------
  // Slice arithmetic and rows
  // ---------------------------------------------------------------------

  method MulSliceAdd<T(==, !new)>(F: Field<T>, c: T, input: seq<T>, out: array<T>)
    requires IsField(F) && |input| == out.Length
    modifies out
    ensures out[..] == AddVec(F, old(out[..]), Scale(F, c, input))
  {
    ghost var was := out[..];
    if c == F.zero {
      forall i | 0 <= i < |input| ensures F.add(was[i], F.mul(c, input[i])) == was[i] {
        MulZero(F, input[i]);
        assert Laws(F, was[i], c, c);
      }
      return;
    }
    if c == F.one {
      for i := 0 to out.Length
        invariant forall j :: 0 <= j < i ==> out[j] == F.add(was[j], F.mul(c, input[j]))
        invariant forall j :: i <= j < out.Length ==> out[j] == was[j]
      {
        assert Laws(F, input[i], c, c);
        out[i] := F.add(out[i], input[i]);
      }
      return;
    }
    for i := 0 to out.Length
      invariant forall j :: 0 <= j < i ==> out[j] == F.add(was[j], F.mul(c, input[j]))
      invariant forall j :: i <= j < out.Length ==> out[j] == was[j]
    {
      out[i] := F.add(out[i], F.mul(c, input[i]));
    }
  }

  // Entry t is the coefficients times byte t of every shard.
  ghost predicate Combines<T>(F: Field<T>, coeffs: seq<T>, data: Matrix<T>, size: nat, row: seq<T>) {
    && Shape(data, |coeffs|, size) && |row| == size
    && forall t :: 0 <= t < size ==> row[t] == Dot(F, coeffs, Column(data, t))
  }

  lemma CombinesNext<T(!new)>(F: Field<T>, coeffs: seq<T>, data: Matrix<T>, size: nat, j: nat, row: seq<T>)
    requires IsField(F) && j < |coeffs| && Shape(data, |coeffs|, size)
    requires Combines(F, coeffs[..j], data[..j], size, row)
    ensures Combines(F, coeffs[..j + 1], data[..j + 1], size, AddVec(F, row, Scale(F, coeffs[j], data[j])))
  {
    var c, d, next := coeffs[..j + 1], data[..j + 1], AddVec(F, row, Scale(F, coeffs[j], data[j]));
    forall t | 0 <= t < size ensures next[t] == Dot(F, c, Column(d, t)) {
      assert c[..j] == coeffs[..j] && Column(d, t)[..j] == Column(data[..j], t);
    }
  }

  method ComputeRow<T(==, !new)>(F: Field<T>, coeffs: seq<T>, data: Matrix<T>, size: nat) returns (row: seq<T>)
    requires IsField(F) && Shape(data, |coeffs|, size)
    ensures Combines(F, coeffs, data, size, row)
  {
    var out := new T[size](_ => F.zero);
    for j := 0 to |coeffs|
      invariant Combines(F, coeffs[..j], data[..j], size, out[..])
    {
      CombinesNext(F, coeffs, data, size, j, out[..]);
      MulSliceAdd(F, coeffs[j], data[j], out);
    }
    assert coeffs[..|coeffs|] == coeffs && data[..|coeffs|] == data;
    return out[..];
  }

  // Rows computed from the data shards by the encoding matrix make a codeword.
  lemma RowsAreCodeword<T(!new)>(C: Codec<T>, cfg: Config, e: Matrix<T>, data: Matrix<T>, shards: Matrix<T>)
    requires IsField(C.F) && EncodingMatrix(C, cfg.k, cfg.n, e) && Shape(data, cfg.k, cfg.size)
    requires Shape(shards, cfg.n, cfg.size)
    requires forall r :: 0 <= r < cfg.n ==> Combines(C.F, e[r], data, cfg.size, shards[r])
    ensures Codeword(C, cfg, shards)
  {
    forall t | 0 <= t < cfg.size ensures OnPolynomial(C, Column(shards, t), cfg.k) {
      assert Column(shards, t) == MatVec(C.F, e, Column(data, t));
    }
  }

  lemma DataRowCombines<T(!new)>(C: Codec<T>, cfg: Config, e: Matrix<T>, data: Matrix<T>, r: nat)
    requires IsField(C.F) && EncodingMatrix(C, cfg.k, cfg.n, e) && Shape(data, cfg.k, cfg.size) && r < cfg.k
    ensures Combines(C.F, e[r], data, cfg.size, data[r])
  {
    forall t | 0 <= t < cfg.size ensures data[r][t] == Dot(C.F, e[r], Column(data, t)) {
      assert MatVec(C.F, e, Column(data, t))[..cfg.k][r] == Column(data, t)[r];
    }
  }

  lemma EncodingShape<T(!new)>(C: Codec<T>, k: nat, n: nat, e: Matrix<T>)
    requires EncodingMatrix(C, k, n, e)
    ensures Shape(e, n, k) && k <= n
  {
  }

  lemma CombinesSize<T>(F: Field<T>, coeffs: seq<T>, data: Matrix<T>, size: nat, row: seq<T>)
    requires Combines(F, coeffs, data, size, row)
    ensures |row| == size
  {
  }

  // The data shards followed by a row for each parity shard.
  method EncodeParity<T(==, !new)>(C: Codec<T>, cfg: Config, e: Matrix<T>, data: Matrix<T>) returns (shards: Matrix<T>)
    requires IsField(C.F) && EncodingMatrix(C, cfg.k, cfg.n, e) && Shape(data, cfg.k, cfg.size)
    ensures Codeword(C, cfg, shards) && shards[..cfg.k] == data
    ensures forall r :: 0 <= r < cfg.n ==> Combines(C.F, e[r], data, cfg.size, shards[r])
  {
    shards := data;
    hide Combines, EncodingMatrix, Codeword;
    EncodingShape(C, cfg.k, cfg.n, e);
    forall r | 0 <= r < cfg.k ensures Combines(C.F, e[r], data, cfg.size, data[r]) {
      DataRowCombines(C, cfg, e, data, r);
    }
    for row := cfg.k to cfg.n
      invariant Shape(shards, row, cfg.size) && shards[..cfg.k] == data
      invariant forall r :: 0 <= r < row ==> Combines(C.F, e[r], data, cfg.size, shards[r])
    {
      var out := ComputeRow(C.F, e[row], data, cfg.size);
      CombinesSize(C.F, e[row], data, cfg.size, out);
      shards := shards + [out];
    }
    RowsAreCodeword(C, cfg, e, data, shards);
  }

  // ---------------------------------------------------------------------
  // Encoding
  // ---------------------------------------------------------------------

  lemma {:induction false} ConcatLength<T>(parts: Matrix<T>, size: nat)
    requires Shape(parts, |parts|, size)
    ensures |Concat(parts)| == |parts| * size
  {
    assert |parts| * size == Cells(|parts|, size);
    if parts == [] {
      NoMore(size);
    } else {
      var m := |parts| - 1;
      ConcatLength(parts[..m], size);
      assert m * size == Cells(m, size);
      hide Cells;
      OneMore(|parts|, size);
    }
  }

  lemma {:induction false} ConcatInjective<T>(a: Matrix<T>, b: Matrix<T>, size: nat)
    requires Shape(a, |a|, size) && Shape(b, |a|, size) && Concat(a) == Concat(b)
    ensures a == b
  {
    if a != [] {
      var m := |a| - 1;
      ConcatLength(a[..m], size);
      ConcatLength(b[..m], size);
      var x, y := Concat(a), Concat(b);
      assert Concat(a[..m]) == x[..m * size] && Concat(b[..m]) == y[..m * size];
      assert a[m] == x[m * size..] && b[m] == y[m * size..];
      ConcatInjective(a[..m], b[..m], size);
      assert a == a[..m] + [a[m]] && b == b[..m] + [b[m]];
    }
  }

  // payload.chunks(size), on a payload that is a whole number of chunks.
  method Chunks<T>(bytes: seq<T>, k: nat, size: nat) returns (parts: Matrix<T>)
    requires |bytes| == k * size
    ensures Shape(parts, k, size) && Concat(parts) == bytes
  {
    parts := [];
    var at := 0;
    assert |bytes| == Cells(k, size);
    hide Cells;
    for j := 0 to k
      invariant at <= |bytes| && |bytes| - at == Cells(k - j, size)
      invariant Shape(parts, j, size) && Concat(parts) == bytes[..at]
    {
      OneMore(k - j, size);
      ConcatLast(parts, bytes[at..at + size]);
      parts := parts + [bytes[at..at + size]];
      at := at + size;
    }
    NoMore(size);
  }

  ghost function Cells(m: nat, size: nat): nat { m * size }

  lemma NoMore(size: nat)
    ensures Cells(0, size) == 0
  {
  }

  lemma OneMore(m: nat, size: nat)
    requires m > 0
    ensures Cells(m, size) == size + Cells(m - 1, size)
  {
  }

  lemma ConcatLast<T>(parts: Matrix<T>, part: seq<T>)
    ensures Concat(parts + [part]) == Concat(parts) + part
  {
    assert (parts + [part])[..|parts|] == parts;
  }

  method EncodeShards<T(==, !new)>(C: Codec<T>, payload: seq<T>, cfg: Config) returns (r: RsResult<Matrix<T>>)
    requires GoodCodec(C)
    ensures r == Err(BadConfig) <==> !ValidConfig(C, cfg)
    ensures r == Err(TooLong) <==> ValidConfig(C, cfg) && |payload| > PaddedLen(cfg)
    ensures r.Ok? <==> ValidConfig(C, cfg) && |payload| <= PaddedLen(cfg)
    ensures r.Ok? ==> Codeword(C, cfg, r.value) && Carries(C, cfg, r.value, payload)
  {
    if cfg.k == 0 || cfg.n <= cfg.k || cfg.size == 0 || cfg.n > C.limit {
      return Err(BadConfig);
    }
    if |payload| > PaddedLen(cfg) {
      return Err(TooLong);
    }
    var e := BuildEncodingMatrix(C, cfg.n, cfg.k);
    var data := Chunks(payload + Zeros(C.F, PaddedLen(cfg) - |payload|), cfg.k, cfg.size);
    var shards := EncodeParity(C, cfg, e, data);
    return Ok(shards);
  }

  /** The shards of a payload are unique: no other codeword carries it. */
  lemma EncodingUnique<T(!new)>(C: Codec<T>, cfg: Config, payload: seq<T>, a: Matrix<T>, b: Matrix<T>)
    requires GoodCodec(C) && ValidConfig(C, cfg) && Codeword(C, cfg, a) && Codeword(C, cfg, b)
    requires Carries(C, cfg, a, payload) && Carries(C, cfg, b, payload)
    ensures a == b
  {
    ConcatInjective(a[..cfg.k], b[..cfg.k], cfg.size);
    var rows: seq<nat> := seq(cfg.k, i => i);
    forall i | 0 <= i < cfg.k ensures a[rows[i]] == b[rows[i]] {
      assert a[..cfg.k][i] == b[..cfg.k][i];
    }
    CodewordDetermined(C, cfg, a, b, rows);
  }

  // ---------------------------------------------------------------------
  // Reconstruction
  // ---------------------------------------------------------------------

  datatype Slot<T> = Missing | Here(data: seq<T>)

  ghost predicate Slots<T>(cfg: Config, slots: seq<Slot<T>>) {
    |slots| == cfg.n && forall i :: 0 <= i < |slots| && slots[i].Here? ==> |slots[i].data| == cfg.size
  }

  // The filled positions, in ascending order.
  function Filled<T>(slots: seq<Slot<T>>): (r: seq<nat>) {
    if slots == [] then []
    else
      var m := |slots| - 1;
      Filled(slots[..m]) + if slots[m].Here? then [m] else []
  }

  lemma {:induction false} FilledMeans<T>(slots: seq<Slot<T>>)
    ensures DistinctRows(Filled(slots), |slots|)
    ensures forall i :: 0 <= i < |slots| ==> (slots[i].Here? <==> i in Filled(slots))
    ensures forall i :: 0 <= i < |Filled(slots)| ==> Filled(slots)[i] < |slots| && slots[Filled(slots)[i]].Here?
  {
    if slots != [] {
      var m := |slots| - 1;
      FilledMeans(slots[..m]);
      assert forall i :: 0 <= i < m ==> slots[..m][i] == slots[i];
      var f := Filled(slots[..m]);
      assert forall i :: 0 <= i < |f| ==> Filled(slots)[i] == f[i];
      assert slots[m].Here? ==> Filled(slots)[|f|] == m;
      assert forall i :: i in Filled(slots) <==> i in f || (i == m && slots[m].Here?);
    }
  }

  method FilledPositions<T>(slots: seq<Slot<T>>) returns (r: seq<nat>)
    ensures r == Filled(slots)
  {
    r := [];
    for i := 0 to |slots|
      invariant r == Filled(slots[..i])
    {
      assert slots[..i + 1][..i] == slots[..i];
      if slots[i].Here? { r := r + [i]; }
    }
    assert slots[..|slots|] == slots;
  }

  // A codeword that agrees with the k filled slots of lowest index.
  ghost predicate Repairs<T(!new)>(C: Codec<T>, cfg: Config, slots: seq<Slot<T>>, shards: Matrix<T>) {
    && Codeword(C, cfg, shards) && |slots| == cfg.n && |Filled(slots)| >= cfg.k
    && forall i :: 0 <= i < cfg.k
        ==> Filled(slots)[i] < cfg.n && slots[Filled(slots)[i]] == Here(shards[Filled(slots)[i]])
  }

  /** There is one repair at most. */
  lemma RepairUnique<T(!new)>(C: Codec<T>, cfg: Config, slots: seq<Slot<T>>, a: Matrix<T>, b: Matrix<T>)
    requires GoodCodec(C) && ValidConfig(C, cfg) && Repairs(C, cfg, slots, a) && Repairs(C, cfg, slots, b)
    ensures a == b
  {
    FilledMeans(slots);
    var rows := Filled(slots)[..cfg.k];
    forall i | 0 <= i < cfg.k ensures a[rows[i]] == b[rows[i]] {
      assert slots[Filled(slots)[i]] == Here(a[rows[i]]) == Here(b[rows[i]]);
    }
    CodewordDetermined(C, cfg, a, b, rows);
  }

  // Data columns recovered through the inverse satisfy the chosen rows.
  lemma RecoveredColumn<T(!new)>(F: Field<T>, sub: Matrix<T>, inv: Matrix<T>, src: Matrix<T>, data: Matrix<T>,
                                 size: nat, t: nat)
    requires Inverse(F, sub, inv) && Shape(src, |sub|, size) && Shape(data, |sub|, size) && t < size
    requires forall j :: 0 <= j < |sub| ==> Combines(F, inv[j], src, size, data[j])
    ensures MatVec(F, sub, Column(data, t)) == Column(src, t)
  {
    assert Column(data, t) == MatVec(F, inv, Column(src, t));
    InverseUndoes(F, sub, inv, Column(src, t));
  }

  lemma RecoveredRow<T(!new)>(F: Field<T>, sub: Matrix<T>, inv: Matrix<T>, src: Matrix<T>, data: Matrix<T>, size: nat,
                              i: nat, row: seq<T>)
    requires Inverse(F, sub, inv) && Shape(src, |sub|, size) && Shape(data, |sub|, size) && i < |sub|
    requires forall j :: 0 <= j < |sub| ==> Combines(F, inv[j], src, size, data[j])
    requires Combines(F, sub[i], data, size, row)
    ensures row == src[i]
  {
    forall t | 0 <= t < size ensures row[t] == src[i][t] {
      RecoveredColumn(F, sub, inv, src, data, size, t);
      assert MatVec(F, sub, Column(data, t))[i] == Column(src, t)[i];
    }
  }

  lemma RecoveredRepairs<T(!new)>(F: Field<T>, e: Matrix<T>, rows: seq<nat>, inv: Matrix<T>, src: Matrix<T>,
                                  data: Matrix<T>, size: nat, shards: Matrix<T>)
    requires forall i :: 0 <= i < |rows| ==> rows[i] < |e|
    requires |shards| == |e| && Shape(src, |rows|, size) && Shape(data, |rows|, size)
    requires Inverse(F, Submatrix(e, rows), inv)
    requires forall j :: 0 <= j < |rows| ==> Combines(F, inv[j], src, size, data[j])
    requires forall r :: 0 <= r < |e| ==> Combines(F, e[r], data, size, shards[r])
    ensures forall i :: 0 <= i < |rows| ==> shards[rows[i]] == src[i]
  {
    forall i | 0 <= i < |rows| ensures shards[rows[i]] == src[i] {
      assert Combines(F, e[rows[i]], data, size, shards[rows[i]]);
      RecoveredRow(F, Submatrix(e, rows), inv, src, data, size, i, shards[rows[i]]);
    }
  }

  // Every row of `rows` times the source shards.
  method ComputeRows<T(==, !new)>(F: Field<T>, rows: Matrix<T>, src: Matrix<T>, size: nat) returns (data: Matrix<T>)
    requires IsField(F) && Shape(rows, |rows|, |src|) && Shape(src, |src|, size)
    ensures Shape(data, |rows|, size)
    ensures forall j :: 0 <= j < |rows| ==> Combines(F, rows[j], src, size, data[j])
  {
    data := [];
    for j := 0 to |rows|
      invariant Shape(data, j, size)
      invariant forall i :: 0 <= i < j ==> Combines(F, rows[i], src, size, data[i])
    {
      var row := ComputeRow(F, rows[j], src, size);
      data := data + [row];
    }
  }

  // The codeword through the given shards at the given rows.
  method RepairFrom<T(==, !new)>(C: Codec<T>, cfg: Config, e: Matrix<T>, rows: seq<nat>,
                                 src: Matrix<T>) returns (shards: Matrix<T>)
    requires GoodCodec(C) && ValidConfig(C, cfg) && EncodingMatrix(C, cfg.k, cfg.n, e)
    requires |rows| == cfg.k && DistinctRows(rows, cfg.n) && Shape(src, cfg.k, cfg.size)
    ensures Codeword(C, cfg, shards) && forall i :: 0 <= i < cfg.k ==> shards[rows[i]] == src[i]
  {
    AnyRowsInvertible(C, cfg.k, cfg.n, e, rows);
    var inversion := InvertMatrix(C.F, Submatrix(e, rows));
    var data := ComputeRows(C.F, inversion.matrix, src, cfg.size);
    shards := EncodeParity(C, cfg, e, data);
    RecoveredRepairs(C.F, e, rows, inversion.matrix, src, data, cfg.size, shards);
  }

  function Sources<T>(slots: seq<Slot<T>>, rows: seq<nat>): (r: Matrix<T>)
    requires forall i :: 0 <= i < |rows| ==> rows[i] < |slots| && slots[rows[i]].Here?
    ensures |r| == |rows|
  {
    seq(|rows|, i requires 0 <= i < |rows| => slots[rows[i]].data)
  }

  /** Reconstruction succeeds exactly when k slots are filled, and then gives the
      one codeword through the k lowest of them; every other shard, present or
      not, is recomputed. It never meets a singular matrix. */
  method ReconstructShards<T(==, !new)>(C: Codec<T>, slots: seq<Slot<T>>, cfg: Config) returns (r: RsResult<Matrix<T>>)
    requires GoodCodec(C) && ValidConfig(C, cfg) && Slots(cfg, slots)
    ensures r == Err(Insufficient) <==> |Filled(slots)| < cfg.k
    ensures r.Ok? <==> |Filled(slots)| >= cfg.k
    ensures r.Ok? ==> Repairs(C, cfg, slots, r.value)
  {
    var e := BuildEncodingMatrix(C, cfg.n, cfg.k);
    var present := FilledPositions(slots);
    if |present| < cfg.k {
      return Err(Insufficient);
    }
    FilledMeans(slots);
    var rows := present[..cfg.k];
    var shards := RepairFrom(C, cfg, e, rows, Sources(slots, rows));
    return Ok(shards);
  }

  // ---------------------------------------------------------------------
  // Decoding
  // ---------------------------------------------------------------------

  datatype Shard<T> = Shard(index: nat, data: seq<T>)

  predicate WellFormed<T>(cfg: Config, s: Shard<T>) {
    s.index < cfg.n && |s.data| == cfg.size
  }

  predicate AllWellFormed<T>(cfg: Config, present: seq<Shard<T>>) {
    forall i :: 0 <= i < |present| ==> WellFormed(cfg, present[i])
  }

  // Entry j is the last one with index i.
  ghost predicate LastAt<T>(present: seq<Shard<T>>, i: int, j: int) {
    0 <= j < |present| && present[j].index == i && forall l :: j < l < |present| ==> present[l].index != i
  }

  // Slot i holds the last shard with index i, as repeated writes leave it.
  ghost predicate Holds<T>(slots: seq<Slot<T>>, present: seq<Shard<T>>) {
    && (forall j :: 0 <= j < |present| ==> present[j].index < |slots| && slots[present[j].index].Here?)
    && (forall i :: 0 <= i < |slots| && slots[i].Here? ==>
          exists j :: LastAt(present, i, j) && present[j].data == slots[i].data)
  }

  lemma HoldsNext<T>(slots: seq<Slot<T>>, p: seq<Shard<T>>, s: Shard<T>)
    requires Holds(slots, p) && s.index < |slots|
    ensures Holds(slots[s.index := Here(s.data)], p + [s])
  {
    var q, next := p + [s], slots[s.index := Here(s.data)];
    assert LastAt(q, s.index, |p|);
    forall i | 0 <= i < |next| && next[i].Here? && i != s.index
      ensures exists m :: LastAt(q, i, m) && q[m].data == next[i].data
    {
      var m :| LastAt(p, i, m) && p[m].data == slots[i].data;
      assert LastAt(q, i, m);
    }
  }

  // Why the list was refused: the first ill-formed shard decides.
  ghost predicate RefusedAt<T>(cfg: Config, present: seq<Shard<T>>, i: nat, e: RsError) {
    && i < |present| && AllWellFormed(cfg, present[..i])
    && (e == BadIndex <==> present[i].index >= cfg.n)
    && (e == BadLength <==> present[i].index < cfg.n && |present[i].data| != cfg.size)
    && (e == BadIndex || e == BadLength)
  }

  // The distinct indices of a list of shards.
  ghost function IndexSet<T>(present: seq<Shard<T>>): set<nat> {
    set j | 0 <= j < |present| :: present[j].index
  }

  lemma {:induction false} DistinctCount(rows: seq<nat>)
    requires forall i, j :: 0 <= i < j < |rows| ==> rows[i] != rows[j]
    ensures |set i | 0 <= i < |rows| :: rows[i]| == |rows|
  {
    var all := set i | 0 <= i < |rows| :: rows[i];
    if rows != [] {
      var m := |rows| - 1;
      DistinctCount(rows[..m]);
      var rest := set i | 0 <= i < m :: rows[..m][i];
      assert all == rest + {rows[m]};
    }
  }

  lemma FilledCount<T>(slots: seq<Slot<T>>, present: seq<Shard<T>>)
    requires Holds(slots, present)
    ensures |Filled(slots)| == |IndexSet(present)|
  {
    var f := Filled(slots);
    FilledMeans(slots);
    DistinctCount(f);
    forall x ensures x in IndexSet(present) <==> x in f {
      if x in f {
        var j :| LastAt(present, x, j);
        assert present[j].index in IndexSet(present);
      }
    }
    assert IndexSet(present) == set i | 0 <= i < |f| :: f[i];
  }

  function Truncate<T>(s: seq<T>, n: nat): seq<T> {
    if n <= |s| then s[..n] else s
  }

  method JoinFirst<T>(shards: Matrix<T>, k: nat) returns (out: seq<T>)
    requires k <= |shards|
    ensures out == Concat(shards[..k])
  {
    out := [];
    for i := 0 to k
      invariant out == Concat(shards[..i])
    {
      assert shards[..i + 1][..i] == shards[..i];
      out := out + shards[i];
    }
  }

  method PlaceShards<T>(cfg: Config, present: seq<Shard<T>>) returns (r: RsResult<seq<Slot<T>>>)
    ensures r.Ok? <==> AllWellFormed(cfg, present)
    ensures r.Ok? ==> Slots(cfg, r.value) && Holds(r.value, present)
    ensures r.Err? ==> exists i :: RefusedAt(cfg, present, i, r.error)
  {
    var slots: seq<Slot<T>> := seq(cfg.n, _ => Missing);
    for j := 0 to |present|
      invariant AllWellFormed(cfg, present[..j]) && Slots(cfg, slots) && Holds(slots, present[..j])
    {
      if present[j].index >= cfg.n {
        assert RefusedAt(cfg, present, j, BadIndex);
        assert !WellFormed(cfg, present[j]);
        return Err(BadIndex);
      }
      if |present[j].data| != cfg.size {
        assert RefusedAt(cfg, present, j, BadLength);
        assert !WellFormed(cfg, present[j]);
        return Err(BadLength);
      }
      HoldsNext(slots, present[..j], present[j]);
      assert present[..j] + [present[j]] == present[..j + 1];
      slots := slots[present[j].index := Here(present[j].data)];
    }
    assert present[..|present|] == present;
    return Ok(slots);
  }

  /** Decoding succeeds exactly on a valid configuration and a well-formed list
      with at least k different indices; the result is read off the one codeword
      through the k lowest indices. */
  method DecodeShards<T(==, !new)>(C: Codec<T>, present: seq<Shard<T>>, cfg: Config,
                                   origLen: nat) returns (r: RsResult<seq<T>>)
    requires GoodCodec(C)
    ensures r == Err(BadConfig) <==> !ValidConfig(C, cfg)
    ensures r.Ok? <==> ValidConfig(C, cfg) && AllWellFormed(cfg, present) && |IndexSet(present)| >= cfg.k
    ensures r == Err(Insufficient) <==>
              ValidConfig(C, cfg) && (|present| < cfg.k || (AllWellFormed(cfg, present) && |IndexSet(present)| < cfg.k))
    ensures r.Err? && ValidConfig(C, cfg) && r.error != Insufficient ==> exists i :: RefusedAt(cfg, present, i, r.error)
    ensures r.Ok? ==> exists slots, shards ::
              Slots(cfg, slots) && Holds(slots, present) && Repairs(C, cfg, slots, shards)
              && r.value == Truncate(Concat(shards[..cfg.k]), origLen)
  {
    if cfg.k == 0 || cfg.n <= cfg.k || cfg.size == 0 || cfg.n > C.limit {
      return Err(BadConfig);
    }
    if |present| < cfg.k {
      IndexSetSize(present);
      return Err(Insufficient);
    }
    var placed := PlaceShards(cfg, present);
    if placed.Err? {
      return Err(placed.error);
    }
    FilledCount(placed.value, present);
    var repaired := ReconstructShards(C, placed.value, cfg);
    if repaired.Err? {
      return Err(repaired.error);
    }
    var out := JoinFirst(repaired.value, cfg.k);
    return Ok(Truncate(out, origLen));
  }

  lemma {:induction false} IndexSetSize<T>(present: seq<Shard<T>>)
    ensures |IndexSet(present)| <= |present|
  {
    if present != [] {
      var m := |present| - 1;
      IndexSetSize(present[..m]);
      assert IndexSet(present) == IndexSet(present[..m]) + {present[m].index};
    }
  }

  // ---------------------------------------------------------------------
  // Any k of n
  // ---------------------------------------------------------------------

  // Every listed shard is the one of that index.
  ghost predicate Genuine<T>(shards: Matrix<T>, present: seq<Shard<T>>) {
    forall j :: 0 <= j < |present| ==> present[j].index < |shards| && present[j].data == shards[present[j].index]
  }

  lemma GenuineRepairs<T(!new)>(C: Codec<T>, cfg: Config, slots: seq<Slot<T>>, present: seq<Shard<T>>,
                                shards: Matrix<T>)
    requires Codeword(C, cfg, shards) && Genuine(shards, present) && |slots| == cfg.n && Holds(slots, present)
    requires |Filled(slots)| >= cfg.k
    ensures Repairs(C, cfg, slots, shards)
  {
    FilledMeans(slots);
    forall i | 0 <= i < cfg.k ensures slots[Filled(slots)[i]] == Here(shards[Filled(slots)[i]]) {
      var f := Filled(slots)[i];
      var j :| LastAt(present, f, j) && present[j].data == slots[f].data;
    }
  }

  /** What decoding promises of genuine shards of an encoded payload, whatever k
      of them arrived, in any order and with repetitions: the payload. */
  lemma AnyKOfN<T(!new)>(C: Codec<T>, cfg: Config, payload: seq<T>, shards: Matrix<T>, present: seq<Shard<T>>,
                         slots: seq<Slot<T>>, repaired: Matrix<T>)
    requires GoodCodec(C) && ValidConfig(C, cfg)
    requires Codeword(C, cfg, shards) && Carries(C, cfg, shards, payload) && Genuine(shards, present)
    requires Slots(cfg, slots) && Holds(slots, present) && Repairs(C, cfg, slots, repaired)
    ensures Truncate(Concat(repaired[..cfg.k]), |payload|) == payload
  {
    GenuineRepairs(C, cfg, slots, present, shards);
    RepairUnique(C, cfg, slots, shards, repaired);
  }

  /** Encode, keep any shards with k different indices, decode: the payload. */
  method RoundTrip<T(==, !new)>(C: Codec<T>, cfg: Config, payload: seq<T>, kept: seq<nat>) returns (r: RsResult<seq<T>>)
    requires GoodCodec(C) && ValidConfig(C, cfg) && |payload| <= PaddedLen(cfg)
    requires (forall i :: 0 <= i < |kept| ==> kept[i] < cfg.n) && |set i | 0 <= i < |kept| :: kept[i]| >= cfg.k
    ensures r == Ok(payload)
  {
    var encoded := EncodeShards(C, payload, cfg);
    var shards := encoded.value;
    var present := seq(|kept|, i requires 0 <= i < |kept| => Shard(kept[i], shards[kept[i]]));
    assert forall i :: 0 <= i < |kept| ==> present[i].index == kept[i];
    assert IndexSet(present) == set i | 0 <= i < |kept| :: kept[i];
    r := DecodeShards(C, present, cfg, |payload|);
    ghost var slots, repaired :| Slots(cfg, slots) && Holds(slots, present) && Repairs(C, cfg, slots, repaired)
      && r.value == Truncate(Concat(repaired[..cfg.k]), |payload|);
    AnyKOfN(C, cfg, payload, shards, present, slots, repaired);
  }
}
