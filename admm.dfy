/** ADMM (src/algo/admm.hpp): the outer loop of the alternating direction
    method of multipliers over vectors of `n` reals.  The inner solver and
    the regulariser's proximal map are parameters; the norm is the
    Euclidean one with the square root as a parameter. */
module Admm {
  import opened Numerics
  import opened Vectors

  /** The solver's settings, with the source's defaults for `rho`,
      `abstol` and `reltol`. */
  datatype Params = Params(iterLimit: int, rho: real, abstol: real, reltol: real)

  function Defaults(iterLimit: int): (p: Params)
    ensures p.iterLimit == iterLimit && p.rho == 0.1 && p.abstol == 0.001 && p.reltol == 0.001
  {
    Params(iterLimit, 0.1, 0.001, 0.001)
  }

  /** `inner.run(b, x, t)` maps a warm start and a target of `n` entries to
      a new `x` of `n` entries. */
  ghost predicate InnerShaped(inner: (Vec, Vec, Vec) -> Vec, n: nat) {
    forall b: Vec, x: Vec, t: Vec :: |x| == n && |t| == n ==> |inner(b, x, t)| == n
  }

  /** The iterates the loop carries: `x`, `z` and the scaled dual `u`. */
  datatype State = State(x: Vec, z: Vec, u: Vec)

  predicate Sized(s: State, n: nat) {
    |s.x| == n && |s.z| == n && |s.u| == n
  }

  /** One iteration: `x` from the inner solver warm-started at `x` with
      target `z - u`, then `z = reg(x + u)` and `u = x + u - z`. */
  function Step(inner: (Vec, Vec, Vec) -> Vec, reg: Vec -> Vec, b: Vec, n: nat, s: State): (t: State)
    requires InnerShaped(inner, n) && Square(reg, n) && Sized(s, n)
    ensures Sized(t, n)
  {
    var x := inner(b, s.x, Sub(s.z, s.u));
    var xpu := Add(x, s.u);
    var z := reg(xpu);
    State(x, z, Sub(xpu, z))
  }

  /** The dual update accumulates the primal residual: `u' = u + x' - z'`. */
  lemma DualAccumulates(inner: (Vec, Vec, Vec) -> Vec, reg: Vec -> Vec, b: Vec, n: nat, s: State)
    requires InnerShaped(inner, n) && Square(reg, n) && Sized(s, n)
    ensures var t := Step(inner, reg, b, n, s); t.u == Add(s.u, Sub(t.x, t.z))
  {
    var t := Step(inner, reg, b, n, s);
    assert forall i :: 0 <= i < n ==> t.u[i] == s.u[i] + (t.x[i] - t.z[i]);
  }

  /** The state after `k` iterations from all zeros. */
  function After(inner: (Vec, Vec, Vec) -> Vec, reg: Vec -> Vec, b: Vec, n: nat, k: nat): (s: State)
    requires InnerShaped(inner, n) && Square(reg, n)
    ensures Sized(s, n)
    ensures k == 0 ==> s == State(Zeros(n), Zeros(n), Zeros(n))
  {
    if k == 0 then State(Zeros(n), Zeros(n), Zeros(n))
    else Step(inner, reg, b, n, After(inner, reg, b, n, k - 1))
  }

  /** The convergence measures of one iteration. */
  datatype Residuals = Residuals(normPrim: real, normDual: real, epsPrim: real, epsDual: real)

  /** The measures after an iteration that took `z` from `zold` to
      `next.z`: the primal residual `|x - z|`, the dual residual
      `|-rho (z - zold)|`, and the tolerances
      `sqrt(n) abstol + reltol max(|x|, |z|)` and `sqrt(n) abstol + reltol rho |u|`. */
  function Measure(sqrt: real -> real, p: Params, n: nat, zold: Vec, next: State): Residuals
    requires |zold| == n && Sized(next, n)
  {
    var sp := sqrt(n as real);
    Residuals(Norm(sqrt, Sub(next.x, next.z)),
              DualResidual(sqrt, p.rho, zold, next.z),
              sp * p.abstol + p.reltol * Max(Norm(sqrt, next.x), Norm(sqrt, next.z)),
              sp * p.abstol + p.reltol * p.rho * Norm(sqrt, next.u))
  }

  /** The measures of the first `k` iterations from all zeros: entry `j`
      compares the state after `j + 1` iterations with the `z` of the state
      after `j`. */
  function Measures(sqrt: real -> real, inner: (Vec, Vec, Vec) -> Vec, reg: Vec -> Vec, b: Vec, p: Params, n: nat, k: nat)
    : (t: seq<Residuals>)
    requires InnerShaped(inner, n) && Square(reg, n)
    ensures |t| == k
    ensures forall j :: 0 <= j < k ==>
      t[j] == Measure(sqrt, p, n, After(inner, reg, b, n, j).z, After(inner, reg, b, n, j + 1))
  {
    if k == 0 then []
    else Measures(sqrt, inner, reg, b, p, n, k - 1)
         + [Measure(sqrt, p, n, After(inner, reg, b, n, k - 1).z, After(inner, reg, b, n, k))]
  }

  /** The dual residual `|-rho (z - zold)|`. */
  function DualResidual(sqrt: real -> real, rho: real, zold: Vec, z: Vec): real
    requires |zold| == |z|
  {
    Norm(sqrt, Scale(-rho, Sub(z, zold)))
  }

  /** The dual residual is `|rho|` times the change in `z`. */
  lemma DualResidualScales(sqrt: real -> real, rho: real, zold: Vec, z: Vec)
    requires IsSqrt(sqrt) && |zold| == |z|
    ensures DualResidual(sqrt, rho, zold, z) == Abs(rho) * Norm(sqrt, Sub(z, zold))
  {
    NormScale(sqrt, -rho, Sub(z, zold));
  }

  /** Both residuals are below their tolerances. */
  predicate Converged(r: Residuals) {
    r.normPrim < r.epsPrim && r.normDual < r.epsDual
  }

  /** With `abstol > 0` and the other settings non-negative, an iteration
      that ends with `x = z` and leaves `z` unchanged has converged. */
  lemma FixedPointConverges(sqrt: real -> real, p: Params, n: nat, zold: Vec, next: State)
    requires IsSqrt(sqrt) && |zold| == n && Sized(next, n) && 0 < n
    requires 0.0 < p.abstol && 0.0 <= p.reltol && 0.0 <= p.rho
    requires next.x == next.z && next.z == zold
    ensures Converged(Measure(sqrt, p, n, zold, next))
  {
    ZeroNorm(sqrt, Sub(next.x, next.z));
    ZeroNorm(sqrt, Scale(-p.rho, Sub(next.z, zold)));
    SqrtPositive(sqrt, n as real);
    NormNonNegative(sqrt, next.x);
    NormNonNegative(sqrt, next.z);
    NormNonNegative(sqrt, next.u);
    Tolerance(sqrt(n as real), p.abstol, p.reltol, Max(Norm(sqrt, next.x), Norm(sqrt, next.z)));
    Tolerance(sqrt(n as real), p.abstol, p.reltol * p.rho, Norm(sqrt, next.u));
  }

  lemma Tolerance(sp: real, abstol: real, rel: real, norm: real)
    requires 0.0 < sp && 0.0 < abstol && 0.0 <= rel && 0.0 <= norm
    ensures 0.0 < sp * abstol + rel * norm
  {
    assert 0.0 < sp * abstol;
    assert 0.0 <= rel * norm;
  }

  lemma ZeroNorm(sqrt: real -> real, a: Vec)
    requires IsSqrt(sqrt) && forall i :: 0 <= i < |a| ==> a[i] == 0.0
    ensures Norm(sqrt, a) == 0.0
  {
    ZeroDot(a);
    SqrtUnique(sqrt, 0.0, 0.0);
  }

  lemma {:induction false} ZeroDot(a: Vec)
    requires forall i :: 0 <= i < |a| ==> a[i] == 0.0
    ensures Dot(a, a) == 0.0
  {
    if |a| > 0 {
      ZeroDot(a[1..]);
    }
  }

  /** The updates of one iteration: `x` from the inner solver, then
      `xpu = x + u`, `z = reg(xpu)` and `u = xpu - z`. */
  method Update(inner: (Vec, Vec, Vec) -> Vec, reg: Vec -> Vec, n: nat, b: Vec, x0: Vec, z0: Vec, u0: Vec)
    returns (x: Vec, z: Vec, u: Vec)
    requires InnerShaped(inner, n) && Square(reg, n) && Sized(State(x0, z0, u0), n)
    ensures State(x, z, u) == Step(inner, reg, b, n, State(x0, z0, u0))
  {
    x := inner(b, x0, Sub(z0, u0));
    var xpu := Add(x, u0);
    z := reg(xpu);
    u := Sub(xpu, z);
  }

  /** The residuals and tolerances after an iteration, with `zold` the
      `z` before it. */
  method Check(sqrt: real -> real, p: Params, n: nat, sp: real, zold: Vec, x: Vec, z: Vec, u: Vec)
    returns (r: Residuals)
    requires sp == sqrt(n as real) && |zold| == |x| == |z| == |u| == n
    ensures r == Measure(sqrt, p, n, zold, State(x, z, u))
  {
    var normPrim := Norm(sqrt, Sub(x, z));
    var normDual := Norm(sqrt, Scale(-p.rho, Sub(z, zold)));
    var epsPrim := sp * p.abstol + p.reltol * Max(Norm(sqrt, x), Norm(sqrt, z));
    var epsDual := sp * p.abstol + p.reltol * p.rho * Norm(sqrt, u);
    r := Residuals(normPrim, normDual, epsPrim, epsDual);
  }

  /** The loop's variables after `|trace|` iterations from all zeros: the
      iterates are `After(|trace|)` and `trace` holds their measures. */
  ghost predicate Reached(sqrt: real -> real, inner: (Vec, Vec, Vec) -> Vec, reg: Vec -> Vec, p: Params, n: nat,
                          b: Vec, x: Vec, z: Vec, u: Vec, trace: seq<Residuals>) {
    && InnerShaped(inner, n) && Square(reg, n)
    && State(x, z, u) == After(inner, reg, b, n, |trace|)
    && trace == Measures(sqrt, inner, reg, b, p, n, |trace|)
  }

  /** One pass of the loop body: the updates, then the measures. */
  method Iteration(sqrt: real -> real, inner: (Vec, Vec, Vec) -> Vec, reg: Vec -> Vec, p: Params, n: nat, b: Vec,
                   sp: real, x0: Vec, z0: Vec, u0: Vec, ghost trace0: seq<Residuals>)
    returns (x: Vec, z: Vec, u: Vec, r: Residuals, ghost trace: seq<Residuals>)
    requires sp == sqrt(n as real) && Reached(sqrt, inner, reg, p, n, b, x0, z0, u0, trace0)
    ensures trace == trace0 + [r] && Reached(sqrt, inner, reg, p, n, b, x, z, u, trace)
  {
    x, z, u := Update(inner, reg, n, b, x0, z0, u0);
    r := Check(sqrt, p, n, sp, z0, x, z, u);
    trace := trace0 + [r];
  }

  /** No iteration before the last converged. */
  predicate Unconverged(trace: seq<Residuals>) {
    forall j :: 0 <= j < |trace| - 1 ==> !Converged(trace[j])
  }

  /** An unconverged trace followed by an iteration that did not converge
      stays unconverged with one more entry. */
  lemma UnconvergedExtends(trace: seq<Residuals>, r: Residuals)
    requires Unconverged(trace) && (0 < |trace| ==> !Converged(trace[|trace| - 1]))
    ensures Unconverged(trace + [r])
  {
  }

  /** `ADMM::run`: at most `iterLimit` iterations from all zeros, leaving
      early exactly after the first iteration whose residuals are both
      below their tolerances; the result is the last `x`, zero when no
      iteration runs. */
  method Run(sqrt: real -> real, inner: (Vec, Vec, Vec) -> Vec, reg: Vec -> Vec, p: Params, n: nat, b: Vec)
    returns (x: Vec, ghost trace: seq<Residuals>)
    requires InnerShaped(inner, n) && Square(reg, n)
    ensures |trace| <= (if p.iterLimit < 0 then 0 else p.iterLimit)
    ensures x == After(inner, reg, b, n, |trace|).x
    ensures trace == Measures(sqrt, inner, reg, b, p, n, |trace|)
    ensures Unconverged(trace)
    ensures |trace| < p.iterLimit ==> 0 < |trace| && Converged(trace[|trace| - 1])
    ensures p.iterLimit <= 0 ==> x == Zeros(n)
  {
    var z, u := Zeros(n), Zeros(n);
    x := Zeros(n);
    var sp := sqrt(n as real);
    trace := [];
    var ii, done := 0, false;
    while ii < p.iterLimit && !done
      invariant ii == |trace|
      invariant Reached(sqrt, inner, reg, p, n, b, x, z, u, trace)
      invariant |trace| <= p.iterLimit || |trace| == 0
      invariant Unconverged(trace)
      invariant 0 < |trace| ==> (done <==> Converged(trace[|trace| - 1]))
      invariant |trace| == 0 ==> x == Zeros(n) && !done
      decreases p.iterLimit - ii
    {
      var r;
      x, z, u, r, trace := Iteration(sqrt, inner, reg, p, n, b, sp, x, z, u, trace);
      ii := ii + 1;
      UnconvergedExtends(trace[..|trace| - 1], r);
      done := r.normPrim < r.epsPrim && r.normDual < r.epsDual;
      // The check of |x - z| against 10 |rho (z - zold)| and back only logs.
    }
  }
}
