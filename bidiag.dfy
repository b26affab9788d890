/** Plane rotations and Golub-Kahan bidiagonalisation (src/algo/bidiag.cpp),
    over the reals with the square root taken as a parameter. */
module Bidiag {
  import opened Numerics
  import opened Vectors
  import opened Wrappers

  /** A rotation `(c, s)` and the length `rho` it leaves. */
  datatype Rot = Rot(c: real, s: real, rho: real)

  /** `(c, s)` is a rotation taking `(a, b)` onto `(rho, 0)`. */
  predicate IsRotation(a: real, b: real, r: Rot) {
    && r.c * r.c + r.s * r.s == 1.0
    && r.c * a + r.s * b == r.rho
    && r.c * b - r.s * a == 0.0
  }

  /** The identities behind the two general branches of `StableGivens`, for
      `k = sigma / q`, `sigma` the sign of `p` and `q = sqrt(1 + t^2)`. */
  lemma LeadIdentities(sigma: real, q: real, t: real, p: real, o: real)
    requires sigma * sigma == 1.0 && 0.0 < sigma * p
    requires 0.0 < q && q * q == 1.0 + t * t && t * p == o
    ensures IsRotation(p, o, LeadRot(sigma, q, t, p)) && 0.0 <= LeadRot(sigma, q, t, p).rho
  {
    var k := sigma / q;
    assert k * q == sigma;
    assert k != 0.0;
    assert k * k * (q * q) == sigma * sigma;
    assert k * k + (k * t) * (k * t) == k * k * (q * q);
    var r := sigma * p * q;
    assert k * r == (k * q) * (sigma * p);
    assert k * r == p;
    assert p / k == r;
    assert k * p + (k * t) * o == k * p * (q * q);
    assert k * p * (q * q) == (k * q) * p * q;
    assert 0.0 <= (sigma * p) * q;
  }

  lemma LeadSetup(sqrt: real -> real, p: real, o: real)
    requires IsSqrt(sqrt) && p != 0.0
    ensures var t := o / p; var q := sqrt(1.0 + t * t);
      && t * p == o && 0.0 < q && q * q == 1.0 + t * t
      && CopySign1(p) * CopySign1(p) == 1.0 && 0.0 < CopySign1(p) * p
  {
    var t := o / p;
    assert 0.0 <= t * t;
    SqrtPositive(sqrt, 1.0 + t * t);
  }

  /** The general branch of `StableGivens` led by `p`, the component of
      larger magnitude: `t = o / p`, the lead coefficient
      `copysign(1 / sqrt(1 + t^2), p)`, the other one that times `t`, and
      `rho = p / lead`. */
  function Lead(sqrt: real -> real, p: real, o: real): (r: Rot)
    requires IsSqrt(sqrt) && p != 0.0
    ensures IsRotation(p, o, r) && 0.0 <= r.rho
  {
    var t := o / p;
    LeadSetup(sqrt, p, o);
    var q := sqrt(1.0 + t * t);
    LeadIdentities(CopySign1(p), q, t, p, o);
    LeadRot(CopySign1(p), q, t, p)
  }

  /** `k = sigma / q`, then `(k, k t, p / k)`. */
  function LeadRot(sigma: real, q: real, t: real, p: real): Rot
    requires 0.0 < q && sigma * sigma == 1.0
  {
    var k := sigma / q;
    assert k * q == sigma;
    Rot(k, k * t, p / k)
  }

  /** `StableGivens(a, b)`: the rotation zeroing `b` against `a`, with
      `rho >= 0`, and `(1, 0, 0)` for the zero vector. */
  function StableGivens(sqrt: real -> real, a: real, b: real): (r: Rot)
    requires IsSqrt(sqrt)
    ensures 0.0 <= r.rho
    ensures a == 0.0 && b == 0.0 ==> r == Rot(1.0, 0.0, 0.0)
    ensures !(a == 0.0 && b == 0.0) ==> IsRotation(a, b, r)
  {
    if b == 0.0 then
      if a == 0.0 then Rot(1.0, 0.0, Abs(a))
      else
        OnAxis(a, b);
        Rot(CopySign1(a), 0.0, Abs(a))
    else if a == 0.0 then
      OnAxis(a, b);
      Rot(0.0, CopySign1(b), Abs(b))
    else if Abs(b) > Abs(a) then
      var l := Lead(sqrt, b, a);
      Swapped(a, b, l);
      Rot(l.s, l.c, l.rho)
    else
      Lead(sqrt, a, b)
  }

  lemma OnAxis(a: real, b: real)
    requires (a == 0.0) != (b == 0.0)
    ensures a != 0.0 ==> IsRotation(a, b, Rot(CopySign1(a), 0.0, Abs(a)))
    ensures b != 0.0 ==> IsRotation(a, b, Rot(0.0, CopySign1(b), Abs(b)))
  {
  }

  /** Led by `b`, the lead coefficient is `s` and the other one `c`. */
  lemma Swapped(a: real, b: real, l: Rot)
    requires IsRotation(b, a, l)
    ensures IsRotation(a, b, Rot(l.s, l.c, l.rho))
  {
  }

  /** A rotation is determined by the vector it rotates: `rho` is its length
      and `(c, s)` its direction. */
  lemma RotationUnique(a: real, b: real, r: Rot)
    requires IsRotation(a, b, r)
    ensures r.rho * r.rho == a * a + b * b
    ensures r.rho * r.c == a && r.rho * r.s == b
  {
    var c, s := r.c, r.s;
    assert (c * a + s * b) * (c * a + s * b) + (c * b - s * a) * (c * b - s * a)
      == (c * c + s * s) * (a * a + b * b);
    assert c * b == s * a;
    assert r.rho * c == c * c * a + s * (c * b);
    assert s * (c * b) == s * s * a;
    assert r.rho * s == c * (s * a) + s * s * b;
    assert c * (s * a) == c * c * b;
  }

  /** On an axis the rotation is a sign: `(sign a, 0, |a|)` or
      `(0, sign b, |b|)`. */
  lemma GivensOnAxis(sqrt: real -> real, a: real, b: real)
    requires IsSqrt(sqrt)
    ensures a != 0.0 && b == 0.0 ==> StableGivens(sqrt, a, b) == Rot(CopySign1(a), 0.0, Abs(a))
    ensures a == 0.0 && b != 0.0 ==> StableGivens(sqrt, a, b) == Rot(0.0, CopySign1(b), Abs(b))
  {
  }

  /** `Rotation(a, b)`: `rho = hypot(a, b)` and `(c, s) = (a, b) / rho`,
      which is 0/0 for the zero vector. */
  datatype RotExt = RotExt(c: Ext, s: Ext, rho: real)

  function Rotation(sqrt: real -> real, a: real, b: real): (r: RotExt)
    requires IsSqrt(sqrt)
    ensures 0.0 <= r.rho && r.rho * r.rho == a * a + b * b
    ensures a == 0.0 && b == 0.0 ==> r.c.NaN? && r.s.NaN?
  {
    assert 0.0 <= a * a + b * b;
    var rho := sqrt(a * a + b * b);
    assert a == 0.0 && b == 0.0 ==> rho == 0.0 by {
      if a == 0.0 && b == 0.0 {
        SqrtUnique(sqrt, a * a + b * b, 0.0);
      }
    }
    RotExt(Divide(a, rho), Divide(b, rho), rho)
  }

  lemma QuotientOf(p: real, q: real, r: real)
    requires q != 0.0 && q * r == p
    ensures p / q == r
  {
  }

  /** `Rotation` and `StableGivens` agree on every non-zero vector. */
  lemma RotationAgrees(sqrt: real -> real, a: real, b: real)
    requires IsSqrt(sqrt)
    requires !(a == 0.0 && b == 0.0)
    ensures var g := StableGivens(sqrt, a, b);
      Rotation(sqrt, a, b) == RotExt(Finite(g.c), Finite(g.s), g.rho)
  {
    var g := StableGivens(sqrt, a, b);
    RotationLength(sqrt, a, b, g);
    RotationDirection(a, b, g);
    RotationOf(sqrt, a, b, g.rho, g.c, g.s);
  }

  lemma RotationLength(sqrt: real -> real, a: real, b: real, r: Rot)
    requires IsSqrt(sqrt) && IsRotation(a, b, r) && 0.0 <= r.rho
    ensures sqrt(a * a + b * b) == r.rho
  {
    RotationUnique(a, b, r);
    SqrtUnique(sqrt, a * a + b * b, r.rho);
  }

  lemma RotationDirection(a: real, b: real, r: Rot)
    requires IsRotation(a, b, r) && !(a == 0.0 && b == 0.0)
    ensures r.rho != 0.0 && a / r.rho == r.c && b / r.rho == r.s
  {
    RotationUnique(a, b, r);
    SumOfSquaresPositive(a, b);
    QuotientOf(a, r.rho, r.c);
    QuotientOf(b, r.rho, r.s);
  }

  lemma RotationOf(sqrt: real -> real, a: real, b: real, rho: real, c: real, s: real)
    requires IsSqrt(sqrt)
    requires sqrt(a * a + b * b) == rho && rho != 0.0 && a / rho == c && b / rho == s
    ensures Rotation(sqrt, a, b) == RotExt(Finite(c), Finite(s), rho)
  {
  }

  lemma SumOfSquaresPositive(a: real, b: real)
    requires !(a == 0.0 && b == 0.0)
    ensures 0.0 < a * a + b * b
  {
    if a != 0.0 {
      assert 0.0 < a * a;
    } else {
      assert 0.0 < b * b;
    }
  }

  // Bidiagonalisation.  `op` is the system matrix, `m` and `n` the adjoints
  // of the left and right preconditioners; `Mu`, `u`, `Nv`, `v`, `alpha`,
  // `beta` and `x` are the source's reference parameters, passed in and
  // returned.

  /** Dividing a vector and its preconditioned image by their `m`-norm
      `beta` leaves them `m`-normalised. */
  lemma Normalised(a: Vec, ma: Vec, beta: real)
    requires |a| == |ma| && 0.0 < beta && beta * beta == Dot(a, ma)
    ensures Dot(DivBy(a, beta), DivBy(ma, beta)) == 1.0
  {
    DotScaleEach(Quot(1.0, beta), a, ma);
    InverseSquare(beta, Dot(a, ma));
  }

  lemma InverseSquare(beta: real, d: real)
    requires 0.0 < beta && beta * beta == d
    ensures Quot(1.0, beta) * (Quot(1.0, beta) * d) == 1.0
  {
    var k := Quot(1.0, beta);
    assert k * beta == 1.0;
    assert k * (k * (beta * beta)) == (k * beta) * (k * beta);
  }

  /** Dividing only the preconditioned image by the `n`-norm `alpha`: the
      product is `alpha`, not 1. */
  lemma HalfNormalised(a: Vec, na: Vec, alpha: real)
    requires |a| == |na| && 0.0 < alpha && alpha * alpha == Dot(a, na)
    ensures Dot(a, DivBy(na, alpha)) == alpha
  {
    DotScaleRight(Quot(1.0, alpha), a, na);
    InverseCancels(alpha, Dot(a, na));
  }

  lemma InverseCancels(alpha: real, d: real)
    requires 0.0 < alpha && alpha * alpha == d
    ensures Quot(1.0, alpha) * d == alpha
  {
    var k := Quot(1.0, alpha);
    assert k * alpha == 1.0;
    assert k * (alpha * alpha) == (k * alpha) * alpha;
  }

  /** The residual the iteration starts from: `b - A x0` with a warm start,
      `b` itself without one. */
  function StartResidual(op: Op, b: Vec, x0: Option<Vec>): (r: Vec)
    requires Shaped(op) && |b| == op.rows && (x0.Some? ==> |x0.value| == op.cols)
    ensures |r| == op.rows
  {
    if x0.Some? then Sub(b, op.fwd(x0.value)) else b
  }

  /** `Mu` and `u` are `r` and `m(r)` divided by the `m`-norm `beta` of
      `r`, and so `m`-normalised when that norm is positive. */
  predicate LeftNormalised(sqrt: real -> real, m: Vec -> Vec, r: Vec, Mu: Vec, u: Vec, beta: real)
    requires Square(m, |r|)
  {
    && |Mu| == |u| == |r|
    && (0.0 <= Dot(r, m(r)) ==> beta == sqrt(Dot(r, m(r))))
    && (beta != 0.0 ==> Scale(beta, Mu) == r && Scale(beta, u) == m(r))
    && (0.0 < Dot(r, m(r)) ==> Dot(Mu, u) == 1.0)
  }

  /** `v` is `n(Nv)` divided by the `n`-norm `alpha` of `Nv`, so that
      `Nv . v == alpha` when that norm is positive. */
  predicate RightNormalised(sqrt: real -> real, n: Vec -> Vec, Nv: Vec, v: Vec, alpha: real)
    requires Square(n, |Nv|)
  {
    && |v| == |Nv|
    && (0.0 <= Dot(Nv, n(Nv)) ==> alpha == sqrt(Dot(Nv, n(Nv))))
    && (alpha != 0.0 ==> Scale(alpha, v) == n(Nv))
    && (0.0 < Dot(Nv, n(Nv)) ==> Dot(Nv, v) == alpha)
  }

  /** The left half of a step: `u = m(r)`, `beta` the `m`-norm of `r`, and
      both divided by it. */
  method LeftNormalise(sqrt: real -> real, m: Vec -> Vec, r: Vec) returns (Mu: Vec, u: Vec, beta: real)
    requires IsSqrt(sqrt) && Square(m, |r|)
    ensures LeftNormalised(sqrt, m, r, Mu, u, beta)
  {
    u := m(r);
    beta := sqrt(Dot(r, u));
    if 0.0 < Dot(r, u) {
      SqrtPositive(sqrt, Dot(r, u));
      Normalised(r, u, beta);
    }
    if beta != 0.0 {
      ScaleUndoesDivBy(r, beta);
      ScaleUndoesDivBy(u, beta);
    }
    Mu := DivBy(r, beta);
    u := DivBy(u, beta);
  }

  /** The right half of a step: `alpha` the `n`-norm of `Nv`, and only
      `v = n(Nv)` divided by it. */
  method RightNormalise(sqrt: real -> real, n: Vec -> Vec, Nv: Vec) returns (v: Vec, alpha: real)
    requires IsSqrt(sqrt) && Square(n, |Nv|)
    ensures RightNormalised(sqrt, n, Nv, v, alpha)
  {
    v := n(Nv);
    alpha := sqrt(Dot(Nv, v));
    if 0.0 < Dot(Nv, v) {
      SqrtPositive(sqrt, Dot(Nv, v));
      HalfNormalised(Nv, v, alpha);
    }
    if alpha != 0.0 {
      ScaleUndoesDivBy(v, alpha);
    }
    v := DivBy(v, alpha);
  }

  /** `BidiagInit`: start from the warm start (or zero), take the
      `m`-normalised residual as `Mu`/`u` with `beta` its norm, then `Nv` as
      `A^T u` and `v` as its `n`-image divided by the `n`-norm `alpha`. */
  method BidiagInit(sqrt: real -> real, op: Op, m: Vec -> Vec, n: Vec -> Vec, b: Vec, x0: Option<Vec>)
    returns (Mu: Vec, u: Vec, Nv: Vec, v: Vec, alpha: real, beta: real, x: Vec)
    requires IsSqrt(sqrt) && Shaped(op) && Square(m, op.rows) && Square(n, op.cols)
    requires |b| == op.rows && (x0.Some? ==> |x0.value| == op.cols)
    ensures x == if x0.Some? then x0.value else Zeros(op.cols)
    ensures |Mu| == op.rows && LeftNormalised(sqrt, m, StartResidual(op, b, x0), Mu, u, beta)
    ensures |Nv| == op.cols && Nv == op.adj(u) && RightNormalised(sqrt, n, Nv, v, alpha)
  {
    if x0.Some? {
      x := x0.value;
      Mu := Sub(b, op.fwd(x));
    } else {
      x := Zeros(op.cols);
      Mu := b;
    }
    Mu, u, beta := LeftNormalise(sqrt, m, Mu);
    Nv := op.adj(u);
    v, alpha := RightNormalise(sqrt, n, Nv);
  }

  /** `Bidiag`: one step.  `Mu` becomes `A v - alpha Mu` and `Nv` becomes
      `A^T u - beta Nv`, each normalised as in `BidiagInit`. */
  method Bidiag(sqrt: real -> real, op: Op, m: Vec -> Vec, n: Vec -> Vec,
                Mu0: Vec, Nv0: Vec, v0: Vec, alpha0: real)
    returns (Mu: Vec, u: Vec, Nv: Vec, v: Vec, alpha: real, beta: real)
    requires IsSqrt(sqrt) && Shaped(op) && Square(m, op.rows) && Square(n, op.cols)
    requires |Mu0| == op.rows && |Nv0| == |v0| == op.cols
    ensures |Mu| == op.rows && LeftNormalised(sqrt, m, Sub(op.fwd(v0), Scale(alpha0, Mu0)), Mu, u, beta)
    ensures |Nv| == op.cols && Nv == Sub(op.adj(u), Scale(beta, Nv0)) && RightNormalised(sqrt, n, Nv, v, alpha)
  {
    Mu, u, beta := LeftNormalise(sqrt, m, Sub(op.fwd(v0), Scale(alpha0, Mu0)));
    Nv := Sub(op.adj(u), Scale(beta, Nv0));
    v, alpha := RightNormalise(sqrt, n, Nv);
  }
}
