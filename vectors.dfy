/** The solvers' vectors (`Eigen::VectorXcf`, flattened tensors), modelled as
    finite sequences of reals with the elementwise operations the solvers use. */
module Vectors {
  import opened Numerics

  type Vec = seq<real>

  function Zeros(n: nat): (z: Vec)
    ensures |z| == n && forall i :: 0 <= i < n ==> z[i] == 0.0
  {
    seq(n, i => 0.0)
  }

  function Add(a: Vec, b: Vec): (r: Vec)
    requires |a| == |b|
    ensures |r| == |a| && forall i :: 0 <= i < |a| ==> r[i] == a[i] + b[i]
  {
    seq(|a|, i requires 0 <= i < |a| => a[i] + b[i])
  }

  function Sub(a: Vec, b: Vec): (r: Vec)
    requires |a| == |b|
    ensures |r| == |a| && forall i :: 0 <= i < |a| ==> r[i] == a[i] - b[i]
  {
    seq(|a|, i requires 0 <= i < |a| => a[i] - b[i])
  }

  function Scale(k: real, a: Vec): (r: Vec)
    ensures |r| == |a| && forall i :: 0 <= i < |a| ==> r[i] == k * a[i]
  {
    seq(|a|, i requires 0 <= i < |a| => k * a[i])
  }

  /** `v / k` for a norm `k` that is zero only in degenerate cases (see `Quot`). */
  function DivBy(a: Vec, k: real): (r: Vec)
    ensures |r| == |a|
  {
    Scale(Quot(1.0, k), a)
  }

  /** Dividing by a non-zero `k` is undone by scaling by `k`. */
  lemma ScaleUndoesDivBy(a: Vec, k: real)
    requires k != 0.0
    ensures Scale(k, DivBy(a, k)) == a
  {
    var r := DivBy(a, k);
    forall i | 0 <= i < |a| ensures Scale(k, r)[i] == a[i] {
      assert k * (Quot(1.0, k) * a[i]) == (k * Quot(1.0, k)) * a[i];
    }
  }

  function Dot(a: Vec, b: Vec): real
    requires |a| == |b|
  {
    if |a| == 0 then 0.0 else a[0] * b[0] + Dot(a[1..], b[1..])
  }

  function Norm(sqrt: real -> real, a: Vec): real {
    sqrt(Dot(a, a))
  }

  lemma {:induction false} DotSelfNonNegative(a: Vec)
    ensures 0.0 <= Dot(a, a)
  {
    if |a| > 0 {
      DotSelfNonNegative(a[1..]);
      assert 0.0 <= a[0] * a[0];
    }
  }

  lemma {:induction false} DotScaleBoth(k: real, a: Vec)
    ensures Dot(Scale(k, a), Scale(k, a)) == k * k * Dot(a, a)
  {
    if |a| > 0 {
      var s := Scale(k, a);
      DotScaleBoth(k, a[1..]);
      ScaleTail(k, a);
      assert Dot(s, s) == (k * a[0]) * (k * a[0]) + Dot(Scale(k, a[1..]), Scale(k, a[1..]));
      assert Dot(a, a) == a[0] * a[0] + Dot(a[1..], a[1..]);
      SquareSumScales(k, a[0], Dot(a[1..], a[1..]));
    }
  }

  lemma ScaleTail(k: real, a: Vec)
    requires |a| > 0
    ensures Scale(k, a)[1..] == Scale(k, a[1..])
  {
    var s := Scale(k, a);
    forall i | 0 <= i < |a| - 1 ensures s[1..][i] == Scale(k, a[1..])[i] {
      assert s[1..][i] == s[i + 1];
    }
  }

  lemma SquareSumScales(k: real, x: real, d: real)
    ensures (k * x) * (k * x) + k * k * d == k * k * (x * x + d)
  {
  }

  lemma NormNonNegative(sqrt: real -> real, a: Vec)
    requires IsSqrt(sqrt)
    ensures 0.0 <= Norm(sqrt, a)
  {
    DotSelfNonNegative(a);
  }

  /** Dot products scale with each argument. */
  lemma {:induction false} DotScaleRight(j: real, a: Vec, b: Vec)
    requires |a| == |b|
    ensures Dot(a, Scale(j, b)) == j * Dot(a, b)
  {
    if |a| > 0 {
      DotScaleRight(j, a[1..], b[1..]);
      ScaleTail(j, b);
      assert Dot(a, Scale(j, b)) == a[0] * (j * b[0]) + Dot(a[1..], Scale(j, b[1..]));
      assert a[0] * (j * b[0]) == j * (a[0] * b[0]);
    }
  }

  lemma {:induction false} DotScaleLeft(k: real, a: Vec, b: Vec)
    requires |a| == |b|
    ensures Dot(Scale(k, a), b) == k * Dot(a, b)
  {
    if |a| > 0 {
      DotScaleLeft(k, a[1..], b[1..]);
      ScaleTail(k, a);
      assert Dot(Scale(k, a), b) == (k * a[0]) * b[0] + Dot(Scale(k, a[1..]), b[1..]);
      assert (k * a[0]) * b[0] == k * (a[0] * b[0]);
    }
  }

  /** Scaling a vector scales its norm by the magnitude of the factor. */
  /** Scaling both sides by `k` scales their product by `k^2`. */
  lemma DotScaleEach(k: real, a: Vec, b: Vec)
    requires |a| == |b|
    ensures Dot(Scale(k, a), Scale(k, b)) == k * (k * Dot(a, b))
  {
    DotScaleLeft(k, a, Scale(k, b));
    DotScaleRight(k, a, b);
  }

  lemma NormScale(sqrt: real -> real, k: real, a: Vec)
    requires IsSqrt(sqrt)
    ensures Norm(sqrt, Scale(k, a)) == Abs(k) * Norm(sqrt, a)
  {
    var s, d := Scale(k, a), Dot(a, a);
    DotSelfNonNegative(a);
    DotScaleBoth(k, a);
    var ds := Dot(s, s);
    assert ds == k * k * d;
    calc {
      Norm(sqrt, s);
      sqrt(ds);
      sqrt(k * k * d);
      { SqrtScale(sqrt, k, d); }
      Abs(k) * sqrt(d);
    }
  }

  lemma SqrtScale(sqrt: real -> real, k: real, d: real)
    requires IsSqrt(sqrt) && 0.0 <= d
    ensures sqrt(k * k * d) == Abs(k) * sqrt(d)
  {
    var q, m := sqrt(d), Abs(k);
    assert 0.0 <= q && q * q == d;
    assert 0.0 <= m && m * m == k * k;
    var r := m * q;
    assert 0.0 <= r;
    assert r * r == (m * m) * (q * q);
    SqrtUnique(sqrt, k * k * d, r);
  }

  /** A linear operator between vectors of `cols` and of `rows` entries,
      given by its forward and adjoint maps. */
  datatype Op = Op(rows: nat, cols: nat, fwd: Vec -> Vec, adj: Vec -> Vec)

  ghost predicate Shaped(op: Op) {
    && (forall x: Vec :: |x| == op.cols ==> |op.fwd(x)| == op.rows)
    && (forall y: Vec :: |y| == op.rows ==> |op.adj(y)| == op.cols)
  }

  /** A map (a preconditioner) from vectors of `n` entries to vectors of `n`. */
  ghost predicate Square(f: Vec -> Vec, n: nat) {
    forall x: Vec :: |x| == n ==> |f(x)| == n
  }
}
