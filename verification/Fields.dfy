/** Fields of characteristic two and vectors over them. The codec below is stated
    over any such field; Gf256 shows that its byte arithmetic is one. */
module Fields {

  datatype Field<!T> = Field(zero: T, one: T, add: (T, T) -> T, mul: (T, T) -> T, inv: T -> T)

  // The laws at three elements; every use names the elements it needs.
  ghost predicate Laws<T>(F: Field<T>, a: T, b: T, c: T) {
    && F.add(a, b) == F.add(b, a)
    && F.add(F.add(a, b), c) == F.add(a, F.add(b, c))
    && F.add(a, F.zero) == a
    && F.add(a, a) == F.zero
    && F.mul(a, b) == F.mul(b, a)
    && F.mul(F.mul(a, b), c) == F.mul(a, F.mul(b, c))
    && F.mul(a, F.one) == a
    && F.mul(a, F.add(b, c)) == F.add(F.mul(a, b), F.mul(a, c))
    && (a != F.zero ==> F.mul(a, F.inv(a)) == F.one)
  }

  ghost predicate IsField<T(!new)>(F: Field<T>) {
    F.zero != F.one && forall a, b, c {:trigger Laws(F, a, b, c)} :: Laws(F, a, b, c)
  }

  // ---------------------------------------------------------------------
  // Scalars
  // ---------------------------------------------------------------------

  lemma MulZero<T(!new)>(F: Field<T>, a: T)
    requires IsField(F)
    ensures F.mul(a, F.zero) == F.zero && F.mul(F.zero, a) == F.zero
  {
    var p := F.mul(a, F.zero);
    assert Laws(F, F.zero, F.zero, F.zero);
    assert Laws(F, a, F.zero, F.zero);
    assert Laws(F, p, p, p);
  }

  lemma SumZero<T(!new)>(F: Field<T>, a: T, b: T)
    requires IsField(F)
    ensures F.add(a, b) == F.zero <==> a == b
  {
    assert Laws(F, a, a, b);
    assert Laws(F, b, b, b);
    assert Laws(F, b, F.zero, a);
    assert Laws(F, a, F.zero, a);
    assert Laws(F, F.zero, b, b);
  }

  lemma NoZeroDivisors<T(!new)>(F: Field<T>, a: T, b: T)
    requires IsField(F) && a != F.zero && F.mul(a, b) == F.zero
    ensures b == F.zero
  {
    var i := F.inv(a);
    assert Laws(F, a, i, b);
    assert Laws(F, i, a, b);
    assert Laws(F, b, F.one, b);
    assert Laws(F, F.one, b, b);
    MulZero(F, i);
  }

  lemma InvNonzero<T(!new)>(F: Field<T>, a: T)
    requires IsField(F) && a != F.zero
    ensures F.inv(a) != F.zero && F.mul(a, F.inv(a)) == F.one
  {
    assert Laws(F, a, a, a);
    MulZero(F, a);
  }

  // (a + b) + (c + d) == (a + c) + (b + d)
  lemma AddSwap<T(!new)>(F: Field<T>, a: T, b: T, c: T, d: T)
    requires IsField(F)
    ensures F.add(F.add(a, b), F.add(c, d)) == F.add(F.add(a, c), F.add(b, d))
  {
    assert Laws(F, a, b, F.add(c, d));
    assert Laws(F, b, c, d);
    assert Laws(F, c, b, d);
    assert Laws(F, a, c, F.add(b, d));
  }

  // (a + b) * c == a * c + b * c
  lemma MulAdd<T(!new)>(F: Field<T>, a: T, b: T, c: T)
    requires IsField(F)
    ensures F.mul(F.add(a, b), c) == F.add(F.mul(a, c), F.mul(b, c))
  {
    assert Laws(F, c, a, b);
    assert Laws(F, F.add(a, b), c, c);
    assert Laws(F, a, c, c);
    assert Laws(F, b, c, c);
  }

  // ---------------------------------------------------------------------
  // Vectors
  // ---------------------------------------------------------------------

  function Dot<T>(F: Field<T>, u: seq<T>, v: seq<T>): T
    requires |u| == |v|
  {
    if u == [] then F.zero
    else
      var n := |u| - 1;
      F.add(Dot(F, u[..n], v[..n]), F.mul(u[n], v[n]))
  }

  function AddVec<T>(F: Field<T>, u: seq<T>, v: seq<T>): (r: seq<T>)
    requires |u| == |v|
    ensures |r| == |u|
  {
    seq(|u|, i requires 0 <= i < |u| => F.add(u[i], v[i]))
  }

  function Scale<T>(F: Field<T>, c: T, u: seq<T>): (r: seq<T>)
    ensures |r| == |u|
  {
    seq(|u|, i requires 0 <= i < |u| => F.mul(c, u[i]))
  }

  function Zeros<T>(F: Field<T>, n: nat): (r: seq<T>)
    ensures |r| == n
  {
    seq(n, _ => F.zero)
  }

  // The unit vector with its one at position `i`.
  function Unit<T>(F: Field<T>, n: nat, i: nat): (r: seq<T>)
    ensures |r| == n
  {
    seq(n, j => if j == i then F.one else F.zero)
  }

  lemma {:induction false} DotComm<T(!new)>(F: Field<T>, u: seq<T>, v: seq<T>)
    requires IsField(F) && |u| == |v|
    ensures Dot(F, u, v) == Dot(F, v, u)
  {
    if u != [] {
      var n := |u| - 1;
      DotComm(F, u[..n], v[..n]);
      assert Laws(F, u[n], v[n], v[n]);
    }
  }

  lemma {:induction false} DotAdd<T(!new)>(F: Field<T>, u: seq<T>, v: seq<T>, w: seq<T>)
    requires IsField(F) && |u| == |v| == |w|
    ensures Dot(F, AddVec(F, u, v), w) == F.add(Dot(F, u, w), Dot(F, v, w))
  {
    if u == [] {
      assert Laws(F, F.zero, F.zero, F.zero);
    } else {
      var n := |u| - 1;
      DotAdd(F, u[..n], v[..n], w[..n]);
      assert AddVec(F, u, v)[..n] == AddVec(F, u[..n], v[..n]);
      MulAdd(F, u[n], v[n], w[n]);
      AddSwap(F, Dot(F, u[..n], w[..n]), Dot(F, v[..n], w[..n]), F.mul(u[n], w[n]), F.mul(v[n], w[n]));
    }
  }

  lemma {:induction false} DotScale<T(!new)>(F: Field<T>, c: T, u: seq<T>, w: seq<T>)
    requires IsField(F) && |u| == |w|
    ensures Dot(F, Scale(F, c, u), w) == F.mul(c, Dot(F, u, w))
  {
    if u == [] {
      MulZero(F, c);
    } else {
      var n := |u| - 1;
      DotScale(F, c, u[..n], w[..n]);
      assert Scale(F, c, u)[..n] == Scale(F, c, u[..n]);
      assert Laws(F, c, u[n], w[n]);
      assert Laws(F, c, Dot(F, u[..n], w[..n]), F.mul(u[n], w[n]));
    }
  }

  // u + c * v, and what it does to a product.
  lemma DotAxpy<T(!new)>(F: Field<T>, u: seq<T>, c: T, v: seq<T>, w: seq<T>)
    requires IsField(F) && |u| == |v| == |w|
    ensures Dot(F, AddVec(F, u, Scale(F, c, v)), w) == F.add(Dot(F, u, w), F.mul(c, Dot(F, v, w)))
  {
    DotAdd(F, u, Scale(F, c, v), w);
    DotScale(F, c, v, w);
  }

  lemma DotAxpyRight<T(!new)>(F: Field<T>, w: seq<T>, u: seq<T>, c: T, v: seq<T>)
    requires IsField(F) && |u| == |v| == |w|
    ensures Dot(F, w, AddVec(F, u, Scale(F, c, v))) == F.add(Dot(F, w, u), F.mul(c, Dot(F, w, v)))
  {
    DotAxpy(F, u, c, v, w);
    DotComm(F, w, AddVec(F, u, Scale(F, c, v)));
    DotComm(F, w, u);
    DotComm(F, w, v);
  }

  lemma {:induction false} DotAppend<T(!new)>(F: Field<T>, u: seq<T>, v: seq<T>, x: seq<T>, y: seq<T>)
    requires IsField(F) && |u| == |x| && |v| == |y|
    ensures Dot(F, u + v, x + y) == F.add(Dot(F, u, x), Dot(F, v, y))
  {
    if v == [] {
      assert u + v == u && x + y == x;
      assert Laws(F, Dot(F, u, x), F.zero, F.zero);
    } else {
      var n := |v| - 1;
      DotAppend(F, u, v[..n], x, y[..n]);
      assert (u + v)[..|u| + n] == u + v[..n];
      assert (x + y)[..|u| + n] == x + y[..n];
      assert Laws(F, Dot(F, u, x), Dot(F, v[..n], y[..n]), F.mul(v[n], y[n]));
    }
  }

  lemma {:induction false} DotZeros<T(!new)>(F: Field<T>, n: nat, v: seq<T>)
    requires IsField(F) && |v| == n
    ensures Dot(F, Zeros(F, n), v) == F.zero && Dot(F, v, Zeros(F, n)) == F.zero
  {
    if n > 0 {
      DotZeros(F, n - 1, v[..n - 1]);
      assert Zeros(F, n)[..n - 1] == Zeros(F, n - 1);
      MulZero(F, v[n - 1]);
      assert Laws(F, F.zero, F.zero, F.zero);
    }
  }

  lemma {:induction false} DotUnit<T(!new)>(F: Field<T>, n: nat, i: nat, v: seq<T>)
    requires IsField(F) && |v| == n && i < n
    ensures Dot(F, Unit(F, n, i), v) == v[i]
  {
    if i == n - 1 {
      assert Unit(F, n, i)[..n - 1] == Zeros(F, n - 1);
      DotZeros(F, n - 1, v[..n - 1]);
      assert Laws(F, v[i], F.one, F.one);
      assert Laws(F, F.one, v[i], F.one);
      assert Laws(F, F.zero, v[i], v[i]);
      assert Laws(F, v[i], F.zero, F.zero);
    } else {
      DotUnit(F, n - 1, i, v[..n - 1]);
      assert Unit(F, n, i)[..n - 1] == Unit(F, n - 1, i);
      MulZero(F, v[n - 1]);
      assert Laws(F, v[i], F.zero, F.zero);
    }
  }

  // ---------------------------------------------------------------------
  // Matrices, as sequences of rows
  // ---------------------------------------------------------------------

  predicate Shape<T>(m: seq<seq<T>>, rows: nat, cols: nat) {
    |m| == rows && forall i :: 0 <= i < |m| ==> |m[i]| == cols
  }

  function MatVec<T>(F: Field<T>, m: seq<seq<T>>, x: seq<T>): (r: seq<T>)
    requires Shape(m, |m|, |x|)
    ensures |r| == |m|
  {
    seq(|m|, i requires 0 <= i < |m| => Dot(F, m[i], x))
  }

  // B undoes A and A undoes B: B A = A B = I, said on vectors.
  ghost predicate Inverse<T(!new)>(F: Field<T>, a: seq<seq<T>>, b: seq<seq<T>>) {
    && Shape(a, |a|, |a|) && Shape(b, |a|, |a|)
    && forall x, y {:trigger MatVec(F, a, x), MatVec(F, b, y)} ::
         |x| == |a| && |y| == |a| ==> (MatVec(F, a, x) == y <==> MatVec(F, b, y) == x)
  }

  ghost predicate TrivialKernel<T(!new)>(F: Field<T>, a: seq<seq<T>>)
    requires Shape(a, |a|, |a|)
  {
    forall x :: |x| == |a| && MatVec(F, a, x) == Zeros(F, |a|) ==> x == Zeros(F, |a|)
  }

  lemma MatVecZeros<T(!new)>(F: Field<T>, m: seq<seq<T>>, n: nat)
    requires IsField(F) && Shape(m, |m|, n)
    ensures MatVec(F, m, Zeros(F, n)) == Zeros(F, |m|)
  {
    forall i | 0 <= i < |m| ensures Dot(F, m[i], Zeros(F, n)) == F.zero {
      DotZeros(F, n, m[i]);
    }
  }

  /** A matrix with an inverse sends only the zero vector to zero. */
  lemma InverseKernel<T(!new)>(F: Field<T>, a: seq<seq<T>>, b: seq<seq<T>>)
    requires IsField(F) && Inverse(F, a, b)
    ensures TrivialKernel(F, a)
  {
    MatVecZeros(F, b, |a|);
  }

  /** The two products of a matrix and its inverse act as the identity. */
  lemma InverseUndoes<T(!new)>(F: Field<T>, a: seq<seq<T>>, b: seq<seq<T>>, x: seq<T>)
    requires Inverse(F, a, b) && |x| == |a|
    ensures MatVec(F, b, MatVec(F, a, x)) == x && MatVec(F, a, MatVec(F, b, x)) == x
  {
    assert |MatVec(F, a, x)| == |a| && |MatVec(F, b, x)| == |a|;
    assert MatVec(F, a, x) == MatVec(F, a, x) <==> MatVec(F, b, MatVec(F, a, x)) == x;
    assert MatVec(F, a, MatVec(F, b, x)) == x <==> MatVec(F, b, x) == MatVec(F, b, x);
  }
}
