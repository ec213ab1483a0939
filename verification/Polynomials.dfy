/** Polynomials over a field: evaluation, division by a linear factor, and the bound
    on the number of roots that makes Vandermonde matrices invertible. */
module Polynomials {
  import opened Fields
  import opened GaussJordan
  import opened Validators

  function Pow<T>(F: Field<T>, a: T, n: nat): T {
    if n == 0 then F.one else F.mul(Pow(F, a, n - 1), a)
  }

  // Value at `x` of the polynomial with coefficients `c`, lowest first.
  function Eval<T>(F: Field<T>, c: seq<T>, x: T): T {
    if c == [] then F.zero else F.add(c[0], F.mul(x, Eval(F, c[1..], x)))
  }

  // Row of powers 1, x, x^2, ...
  function Powers<T>(F: Field<T>, x: T, k: nat): (r: seq<T>)
    ensures |r| == k
  {
    seq(k, i requires 0 <= i < k => Pow(F, x, i))
  }

  lemma {:induction false} PowShift<T(!new)>(F: Field<T>, a: T, n: nat)
    requires IsField(F)
    ensures Pow(F, a, n + 1) == F.mul(a, Pow(F, a, n))
  {
    assert Laws(F, Pow(F, a, n), a, a);
  }

  lemma {:induction false} EvalLast<T(!new)>(F: Field<T>, c: seq<T>, x: T)
    requires IsField(F) && c != []
    ensures var n := |c| - 1; Eval(F, c, x) == F.add(Eval(F, c[..n], x), F.mul(Pow(F, x, n), c[n]))
  {
    var n := |c| - 1;
    if n == 0 {
      assert c[1..] == [];
      MulZero(F, x);
      assert Laws(F, c[0], F.zero, F.one);
      assert Laws(F, c[0], F.one, F.one);
      assert Laws(F, F.one, c[0], c[0]);
      assert Laws(F, F.zero, c[0], c[0]);
    } else {
      var t := c[1..];
      EvalLast(F, t, x);
      assert t[..n - 1] == c[..n][1..] && t[n - 1] == c[n];
      var e, p := Eval(F, t[..n - 1], x), Pow(F, x, n - 1);
      assert Laws(F, x, e, F.mul(p, c[n]));
      assert Laws(F, x, p, c[n]);
      PowShift(F, x, n - 1);
      assert Laws(F, c[0], F.mul(x, e), F.mul(Pow(F, x, n), c[n]));
    }
  }

  /** A Vandermonde row times a coefficient vector is polynomial evaluation. */
  lemma {:induction false} DotIsEval<T(!new)>(F: Field<T>, x: T, c: seq<T>)
    requires IsField(F)
    ensures Dot(F, Powers(F, x, |c|), c) == Eval(F, c, x)
  {
    if c != [] {
      var n := |c| - 1;
      DotIsEval(F, x, c[..n]);
      assert Powers(F, x, |c|)[..n] == Powers(F, x, n);
      EvalLast(F, c, x);
    }
  }

  // ---------------------------------------------------------------------
  // Division by x + a
  // ---------------------------------------------------------------------

  // Entry i is the value at `a` of the polynomial with its first i coefficients
  // dropped: entry 0 is the remainder, the rest the quotient.
  function Horner<T>(F: Field<T>, c: seq<T>, a: T): (r: seq<T>)
    ensures |r| == |c|
  {
    if c == [] then [] else [Eval(F, c, a)] + Horner(F, c[1..], a)
  }

  function Quotient<T>(F: Field<T>, c: seq<T>, a: T): (r: seq<T>)
    requires c != []
    ensures |r| == |c| - 1
  {
    Horner(F, c[1..], a)
  }

  // c0 + a e + (x + a)(e + x q) == c0 + x (e + (x + a) q)
  lemma Regroup<T(!new)>(F: Field<T>, c0: T, a: T, x: T, e: T, q: T)
    requires IsField(F)
    ensures F.add(F.add(c0, F.mul(a, e)), F.mul(F.add(x, a), F.add(e, F.mul(x, q))))
            == F.add(c0, F.mul(x, F.add(e, F.mul(F.add(x, a), q))))
  {
    var s, ae, xe, sxq := F.add(x, a), F.mul(a, e), F.mul(x, e), F.mul(F.add(x, a), F.mul(x, q));
    assert Laws(F, s, e, F.mul(x, q));                     // s (e + xq) = se + s(xq)
    MulAdd(F, x, a, e);                                    // se = xe + ae
    assert F.mul(s, F.add(e, F.mul(x, q))) == F.add(F.add(xe, ae), sxq);
    assert Laws(F, c0, ae, F.add(F.add(xe, ae), sxq));     // (c0 + ae) + ... = c0 + (ae + ...)
    assert Laws(F, ae, F.add(xe, ae), sxq);
    assert Laws(F, xe, ae, ae);
    assert Laws(F, ae, xe, ae);
    assert Laws(F, ae, ae, xe);
    assert Laws(F, xe, F.zero, xe);
    assert F.add(ae, F.add(xe, ae)) == xe;
    assert Laws(F, x, e, F.mul(s, q));                     // x (e + sq) = xe + x(sq)
    assert Laws(F, x, s, q);
    assert Laws(F, s, x, q);
  }

  /** c(x) == c(a) + (x + a) q(x) for the quotient q. */
  lemma {:induction false} Division<T(!new)>(F: Field<T>, c: seq<T>, a: T, x: T)
    requires IsField(F) && c != []
    ensures Eval(F, c, x) == F.add(Eval(F, c, a), F.mul(F.add(x, a), Eval(F, Quotient(F, c, a), x)))
  {
    var t := c[1..];
    if t == [] {
      MulZero(F, x);
      MulZero(F, a);
      MulZero(F, F.add(x, a));
      assert Laws(F, c[0], F.zero, F.zero);
      assert Laws(F, F.add(c[0], F.zero), F.zero, F.zero);
    } else {
      Division(F, t, a, x);
      var q := Eval(F, Quotient(F, t, a), x);
      assert Quotient(F, c, a) == [Eval(F, t, a)] + Quotient(F, t, a);
      assert Quotient(F, c, a)[1..] == Quotient(F, t, a);
      Regroup(F, c[0], a, x, Eval(F, t, a), q);
    }
  }

  lemma {:induction false} EvalZeros<T(!new)>(F: Field<T>, n: nat, x: T)
    requires IsField(F)
    ensures Eval(F, Zeros(F, n), x) == F.zero
  {
    if n > 0 {
      assert Zeros(F, n)[1..] == Zeros(F, n - 1);
      EvalZeros(F, n - 1, x);
      MulZero(F, x);
      assert Laws(F, F.zero, F.zero, F.zero);
    }
  }

  lemma {:induction false} HornerZero<T(!new)>(F: Field<T>, c: seq<T>, a: T)
    requires IsField(F) && Horner(F, c, a) == Zeros(F, |c|)
    ensures c == Zeros(F, |c|)
  {
    if c != [] {
      assert Horner(F, c, a)[1..] == Zeros(F, |c|)[1..] == Zeros(F, |c| - 1);
      assert Horner(F, c, a)[1..] == Horner(F, c[1..], a);
      HornerZero(F, c[1..], a);
      assert Horner(F, c, a)[0] == F.zero;
      EvalZeros(F, |c| - 1, a);
      MulZero(F, a);
      assert Laws(F, c[0], F.zero, F.zero);
      assert c == [c[0]] + c[1..];
    }
  }

  /** A polynomial with as many different roots as coefficients is zero. */
  lemma {:induction false} ManyRoots<T(!new)>(F: Field<T>, c: seq<T>, xs: seq<T>)
    requires IsField(F) && |xs| == |c| && Distinct(xs)
    requires forall i :: 0 <= i < |xs| ==> Eval(F, c, xs[i]) == F.zero
    ensures c == Zeros(F, |c|)
    decreases |c|
  {
    if c != [] {
      var a, q, rest := xs[0], Quotient(F, c, xs[0]), xs[1..];
      forall i | 0 <= i < |rest| ensures Eval(F, q, rest[i]) == F.zero {
        var x := xs[i + 1];
        Division(F, c, a, x);
        SumZero(F, x, a);
        SumZero(F, F.zero, F.mul(F.add(x, a), Eval(F, q, x)));
        NoZeroDivisors(F, F.add(x, a), Eval(F, q, x));
      }
      ManyRoots(F, q, rest);
      HornerZero(F, c[1..], a);
      EvalZeros(F, |c| - 1, a);
      MulZero(F, a);
      assert Laws(F, c[0], F.zero, F.zero);
      assert c == [c[0]] + c[1..];
    }
  }

  // ---------------------------------------------------------------------
  // Vandermonde matrices
  // ---------------------------------------------------------------------

  function Vandermonde<T>(F: Field<T>, xs: seq<T>, cols: nat): (r: Matrix<T>)
    ensures Shape(r, |xs|, cols)
  {
    seq(|xs|, i requires 0 <= i < |xs| => Powers(F, xs[i], cols))
  }

  /** Over different points, a square Vandermonde matrix has a trivial kernel. */
  lemma VandermondeKernel<T(!new)>(F: Field<T>, xs: seq<T>)
    requires IsField(F) && Distinct(xs)
    ensures TrivialKernel(F, Vandermonde(F, xs, |xs|))
  {
    var v, k := Vandermonde(F, xs, |xs|), |xs|;
    forall c | |c| == k && MatVec(F, v, c) == Zeros(F, k) ensures c == Zeros(F, k) {
      forall i | 0 <= i < k ensures Eval(F, c, xs[i]) == F.zero {
        DotIsEval(F, xs[i], c);
        assert MatVec(F, v, c)[i] == Dot(F, v[i], c);
      }
      ManyRoots(F, c, xs);
    }
  }

  // ---------------------------------------------------------------------
  // Powers by repeated squaring (erasure::gf256::pow)
  // ---------------------------------------------------------------------

  lemma {:induction false} PowSquare<T(!new)>(F: Field<T>, a: T, n: nat)
    requires IsField(F)
    ensures Pow(F, F.mul(a, a), n) == Pow(F, a, 2 * n)
  {
    if n > 0 {
      PowSquare(F, a, n - 1);
      assert Pow(F, a, 2 * n) == F.mul(F.mul(Pow(F, a, 2 * n - 2), a), a);
      assert Laws(F, Pow(F, a, 2 * n - 2), a, a);
    }
  }

  // One round of squaring moves a factor into the accumulator if the exponent is odd.
  lemma HalfPower<T(!new)>(F: Field<T>, acc: T, base: T, m: nat)
    requires IsField(F) && m > 0
    ensures F.mul(if m % 2 != 0 then F.mul(acc, base) else acc, Pow(F, F.mul(base, base), m / 2))
            == F.mul(acc, Pow(F, base, m))
  {
    PowSquare(F, base, m / 2);
    if m % 2 != 0 {
      assert m - 1 == 2 * (m / 2);
      PowShift(F, base, m - 1);
      assert Laws(F, acc, base, Pow(F, base, m - 1));
    } else {
      assert m == 2 * (m / 2);
    }
  }

  method PowBySquaring<T(!new)>(F: Field<T>, a: T, n: nat) returns (acc: T)
    requires IsField(F)
    ensures acc == Pow(F, a, n)
  {
    acc := F.one;
    var base, m := a, n;
    assert Laws(F, Pow(F, a, n), F.one, F.one);
    assert Laws(F, F.one, Pow(F, a, n), F.one);
    while m > 0
      invariant F.mul(acc, Pow(F, base, m)) == Pow(F, a, n)
    {
      HalfPower(F, acc, base, m);
      if m % 2 != 0 {
        acc := F.mul(acc, base);
      }
      base := F.mul(base, base);
      m := m / 2;
    }
    assert Laws(F, acc, F.one, F.one);
  }
}
