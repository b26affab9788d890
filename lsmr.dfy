/** LSMR (src/algo/lsmr.hpp): least squares by Golub-Kahan bidiagonalisation
    with a QR factorisation updated by plane rotations, after the LSMR of
    Fong and Saunders as published in pykrylov.  Two drivers: `Run`
    (`lsmr`, regularised towards `xr` with a warm start) and `RunDamped`
    (`lsmr_damp`, Tikhonov damping).  Scalars are reals; the square root is
    a parameter. */
module Lsmr {
  import opened Numerics
  import opened Vectors
  import opened Wrappers
  import opened Bidiag

  // ---------------------------------------------------------------------
  // SymOrtho

  /** `SymOrtho` as written: in the branch `|b| > |a|` it returns the lead
      coefficient first, so the triple is `(s, c, rho)`. */
  function SymOrthoAsWritten(sqrt: real -> real, a: real, b: real): (r: Rot)
    requires IsSqrt(sqrt)
    ensures 0.0 <= r.rho
    ensures !(a != 0.0 && b != 0.0 && Abs(b) > Abs(a)) ==> r == StableGivens(sqrt, a, b)
  {
    if b == 0.0 then Rot(CopySign1(a), 0.0, Abs(a))
    else if a == 0.0 then Rot(0.0, CopySign1(b), Abs(b))
    else if Abs(b) > Abs(a) then Lead(sqrt, b, a)
    else Lead(sqrt, a, b)
  }

  /** In the branch `|b| > |a|` the as-written triple is the rotation of
      `(a, b)` with `c` and `s` exchanged. */
  lemma SymOrthoAsWrittenSwaps(sqrt: real -> real, a: real, b: real)
    requires IsSqrt(sqrt) && a != 0.0 && b != 0.0 && Abs(b) > Abs(a)
    ensures var g := StableGivens(sqrt, a, b);
      SymOrthoAsWritten(sqrt, a, b) == Rot(g.s, g.c, g.rho)
  {
  }

  /** For `(a, b) = (1, 2)` the as-written triple does not rotate `(1, 2)`
      onto the first axis. */
  lemma SymOrthoAsWrittenNotRotation(sqrt: real -> real)
    requires IsSqrt(sqrt)
    ensures !IsRotation(1.0, 2.0, SymOrthoAsWritten(sqrt, 1.0, 2.0))
  {
    var r := SymOrthoAsWritten(sqrt, 1.0, 2.0);
    assert IsRotation(2.0, 1.0, r);
    assert r.c == 2.0 * r.s;
    assert 5.0 * (r.s * r.s) == 1.0;
    assert r.c * 2.0 - r.s * 1.0 == 3.0 * r.s != 0.0;
  }

  /** `SymOrtho` with the branch `|b| > |a|` returning `(c, s, rho)`: the
      same rotation as `StableGivens`, so `c a + s b = rho`, `c b = s a`
      and `rho >= 0` for every non-zero `(a, b)`, and `(1, 0, 0)` for zero. */
  function SymOrtho(sqrt: real -> real, a: real, b: real): (r: Rot)
    requires IsSqrt(sqrt)
    ensures r == StableGivens(sqrt, a, b)
  {
    if b == 0.0 then Rot(CopySign1(a), 0.0, Abs(a))
    else if a == 0.0 then Rot(0.0, CopySign1(b), Abs(b))
    else if Abs(b) > Abs(a) then
      var l := Lead(sqrt, b, a);
      Rot(l.s, l.c, l.rho)
    else Lead(sqrt, a, b)
  }

  /** Every `SymOrtho` triple has `c^2 + s^2 = 1`. */
  lemma SymOrthoUnit(sqrt: real -> real, a: real, b: real)
    requires IsSqrt(sqrt)
    ensures var r := SymOrtho(sqrt, a, b); r.c * r.c + r.s * r.s == 1.0
  {
    var r := SymOrtho(sqrt, a, b);
    if a == 0.0 && b == 0.0 {
      assert r == Rot(1.0, 0.0, 0.0);
    } else {
      assert IsRotation(a, b, r);
    }
  }

  /** A non-negative first component gives a non-negative `c`. */
  lemma SymOrthoCosineSign(sqrt: real -> real, a: real, b: real)
    requires IsSqrt(sqrt) && 0.0 <= a
    ensures 0.0 <= SymOrtho(sqrt, a, b).c
  {
    var r := SymOrtho(sqrt, a, b);
    if a == 0.0 && b == 0.0 {
      assert r == Rot(1.0, 0.0, 0.0);
    } else {
      assert IsRotation(a, b, r) && 0.0 <= r.rho;
      RotationDirection(a, b, r);
      QuotientNonNegative(a, r.rho);
    }
  }

  lemma QuotientNonNegative(p: real, q: real)
    requires 0.0 <= p && 0.0 < q
    ensures 0.0 <= p / q
  {
  }

  // ---------------------------------------------------------------------
  // Stopping tests

  /** The six convergence tests, in the order the loop tries them. */
  datatype Stop = CondHuge | CondLimit | LsPrecision | LsTol | ResidualTol | ResidualPrecision

  function Rank(t: Stop): nat {
    match t
    case CondHuge => 0
    case CondLimit => 1
    case LsPrecision => 2
    case LsTol => 3
    case ResidualTol => 4
    case ResidualPrecision => 5
  }

  datatype Tol = Tol(atol: real, btol: real, ctol: real)

  /** What one iteration reports to the tests: the condition estimate, the
      norms of `A^T r`, `A`, `r` and `x`, and the initial residual. */
  datatype Tests = Tests(condA: Ext, normar: real, normA: real, normr: real, normx: real, normb: real)

  /** Test `t` holds.  The machine-precision tests `1 + e <= 1` are read
      over the reals (`Negligible`); `1 / condA` and the quotients follow
      IEEE division by zero. */
  predicate Fires(t: Stop, e: Tests, tol: Tol) {
    match t
    case CondHuge => Negligible(Reciprocal(e.condA))
    case CondLimit => AtMost(Reciprocal(e.condA), tol.ctol)
    case LsPrecision => Negligible(Divide(e.normar, e.normA * e.normr))
    case LsTol => AtMost(Divide(e.normar, e.normA * e.normr), tol.atol)
    case ResidualTol => e.normr <= tol.btol * e.normb + tol.atol * e.normA * e.normx
    case ResidualPrecision => Negligible(Divide(e.normr, e.normb + e.normA * e.normx))
  }

  /** The test that ends the iteration, if any: one that holds, and none
      tried before it holds; `None` exactly when no test holds. */
  function FirstStop(e: Tests, tol: Tol): (r: Option<Stop>)
    ensures r.Some? ==> Fires(r.value, e, tol)
    ensures r.Some? ==> forall t: Stop :: Rank(t) < Rank(r.value) ==> !Fires(t, e, tol)
    ensures r.None? <==> forall t: Stop :: !Fires(t, e, tol)
  {
    if Fires(CondHuge, e, tol) then Some(CondHuge)
    else if Fires(CondLimit, e, tol) then Some(CondLimit)
    else if Fires(LsPrecision, e, tol) then Some(LsPrecision)
    else if Fires(LsTol, e, tol) then Some(LsTol)
    else if Fires(ResidualTol, e, tol) then Some(ResidualTol)
    else if Fires(ResidualPrecision, e, tol) then Some(ResidualPrecision)
    else None
  }

  /** `cond(A)` estimated as `max(maxRhoBar, rhoTemp) / min(minRhoBar, rhoTemp)`. */
  function CondEstimate(maxRhoBar: real, minRhoBar: real, rhoTemp: real): Ext {
    Divide(Max(maxRhoBar, rhoTemp), Min(minRhoBar, rhoTemp))
  }

  /** While `rhoTemp` and the running minimum are positive the estimate is
      at least 1, so over the reals the "very large" test cannot hold. */
  lemma CondAtLeastOne(maxRhoBar: real, minRhoBar: real, rhoTemp: real)
    requires 0.0 < minRhoBar && 0.0 < rhoTemp
    ensures var e := CondEstimate(maxRhoBar, minRhoBar, rhoTemp);
      e.Finite? && 1.0 <= e.v && !Negligible(Reciprocal(e))
  {
    var hi, lo := Max(maxRhoBar, rhoTemp), Min(minRhoBar, rhoTemp);
    assert 0.0 < lo <= hi;
    QuotientAtLeastOne(hi, lo);
    assert CondEstimate(maxRhoBar, minRhoBar, rhoTemp) == Finite(hi / lo);
  }

  lemma QuotientAtLeastOne(hi: real, lo: real)
    requires 0.0 < lo <= hi
    ensures 1.0 <= hi / lo && !Negligible(Reciprocal(Finite(hi / lo)))
  {
    var q := hi / lo;
    assert q * lo == hi;
    assert (q - 1.0) * lo >= 0.0;
    assert Reciprocal(Finite(q)) == Finite(1.0 / q);
    assert 0.0 < 1.0 / q;
  }

  // ---------------------------------------------------------------------
  // The scalar recurrences

  /** `std::numeric_limits<float>::max()`, the largest finite
      single-precision value, `(2 - 2^-23) 2^127`. */
  const FloatMax: real := 340282346638528859811704183484516925440.0

  /** The scalars the loop carries from one iteration to the next. */
  datatype Scalars = Scalars(
    zetaBar: real, alphaBar: real, rho: real, rhoBar: real, cBar: real, sBar: real,
    betaDd: real, betaD: real, rhoDotOld: real, tauTildeOld: real, thetaTilde: real,
    zeta: real, d: real, normA2: real, maxRhoBar: real, minRhoBar: real)

  /** The scalars before the first iteration, from the first `alpha` and `beta`. */
  function Start(alpha: real, beta: real): (s: Scalars)
    ensures 0.0 <= s.normA2 && s.d == 0.0
  {
    Scalars(alpha * beta, alpha, 1.0, 1.0, 1.0, 0.0,
            beta, 0.0, 1.0, 0.0, 0.0,
            0.0, 0.0, alpha * alpha, 0.0, FloatMax)
  }

  /** The pieces of the residual estimate after the rotations `hat` (the
      damping one) and `r` (the main one) are applied to `betaDd`. */
  datatype Residual = Residual(betaHat: real, betaCheck: real, betaDd: real)

  /** The residual update of `lsmr_damp` as written: `betaHat = ch betaDd`,
      `betaCheck = -sh betaDd`, `betaDd := -s betaDd`. It does not preserve
      the length of `betaDd`: when `hat` is a rotation, the squares of the
      pieces exceed `betaDd^2` by `(s betaDd)^2`. */
  function ResidualRotationAsWritten(hat: Rot, r: Rot, betaDd: real): (p: Residual)
    ensures hat.c * hat.c + hat.s * hat.s == 1.0 ==>
      p.betaHat * p.betaHat + p.betaCheck * p.betaCheck + p.betaDd * p.betaDd
        == betaDd * betaDd + (r.s * betaDd) * (r.s * betaDd)
  {
    var p := Residual(hat.c * betaDd, -hat.s * betaDd, -r.s * betaDd);
    assert p.betaHat * p.betaHat + p.betaCheck * p.betaCheck
      == (hat.c * hat.c + hat.s * hat.s) * (betaDd * betaDd);
    p
  }

  /** With no damping (`lambda = 0`, `alphaBar = alpha = beta = 1`) the
      as-written `betaHat` of the first iteration differs from the one
      `lsmr` computes, `c betaDd`. */
  lemma AsWrittenResidualDiffers(sqrt: real -> real)
    requires IsSqrt(sqrt)
    ensures DampRotation(sqrt, 1.0, Some(0.0)) == Rot(1.0, 0.0, 1.0)
    ensures var r := SymOrtho(sqrt, 1.0, 1.0);
      ResidualRotationAsWritten(Rot(1.0, 0.0, 1.0), r, 1.0).betaHat != r.c * 1.0
  {
    DiagonalCosine(SymOrtho(sqrt, 1.0, 1.0));
  }

  /** The rotation of `(1, 1)` has `c != 1`. */
  lemma DiagonalCosine(r: Rot)
    requires IsRotation(1.0, 1.0, r)
    ensures r.c != 1.0
  {
    assert r.s == r.c;
    assert 2.0 * (r.c * r.c) == 1.0;
  }

  /** The residual update of LSMR: `hat` applied to `(betaDd, 0)` gives
      `(betaAcute, betaCheck)`, then `r` applied to `(betaAcute, 0)` gives
      `(betaHat, betaDd)`.  When both are rotations the three pieces keep
      the length of `betaDd`. */
  function ResidualRotation(hat: Rot, r: Rot, betaDd: real): (p: Residual)
    ensures (hat.c * hat.c + hat.s * hat.s == 1.0 && r.c * r.c + r.s * r.s == 1.0) ==>
      p.betaHat * p.betaHat + p.betaCheck * p.betaCheck + p.betaDd * p.betaDd == betaDd * betaDd
  {
    var acute := hat.c * betaDd;
    var p := Residual(r.c * acute, -hat.s * betaDd, -r.s * acute);
    RotatedLength(r.c, r.s, acute);
    RotatedLength(hat.c, hat.s, betaDd);
    p
  }

  lemma RotatedLength(c: real, s: real, x: real)
    ensures c * c + s * s == 1.0 ==> (c * x) * (c * x) + (s * x) * (s * x) == x * x
  {
    assert (c * x) * (c * x) + (s * x) * (s * x) == (c * c + s * s) * (x * x);
  }

  /** `normA` grows with `beta` first and `alpha` afterwards: the reported
      estimate lies between the square roots of the old and the new `normA2`. */
  lemma NormAEstimate(sqrt: real -> real, normA2: real, beta: real, alpha: real)
    requires IsSqrt(sqrt)
    ensures 0.0 <= normA2 ==> 0.0 <= normA2 + beta * beta + alpha * alpha
    ensures 0.0 <= normA2 ==>
      sqrt(normA2) <= sqrt(normA2 + beta * beta) <= sqrt(normA2 + beta * beta + alpha * alpha)
  {
    if 0.0 <= normA2 {
      assert 0.0 <= beta * beta && 0.0 <= alpha * alpha;
      SqrtMonotone(sqrt, normA2, normA2 + beta * beta);
      SqrtMonotone(sqrt, normA2 + beta * beta, normA2 + beta * beta + alpha * alpha);
    }
  }

  /** One iteration's scalar results: the next scalars, the coefficients of
      the `h`, `h̅` and `x` updates, and the inputs of the tests. */
  datatype Step = Step(next: Scalars, hBarCoef: real, xCoef: real, hCoef: real,
                       rhoTemp: real, normr: real, normA: real, condA: Ext, normar: real)

  /** The damping rotation `(ch, sh, alphaHat)`: `SymOrtho(alphaBar, lambda)`
      in `lsmr_damp`.  `lsmr` has none, which is the rotation
      `(1, 0, alphaBar)`. */
  function DampRotation(sqrt: real -> real, alphaBar: real, damp: Option<real>): (hat: Rot)
    requires IsSqrt(sqrt)
    ensures hat.c * hat.c + hat.s * hat.s == 1.0
    ensures 0.0 <= alphaBar ==> 0.0 <= hat.rho
  {
    if damp.Some? then
      SymOrthoUnit(sqrt, alphaBar, damp.value);
      SymOrtho(sqrt, alphaBar, damp.value)
    else Rot(1.0, 0.0, alphaBar)
  }

  /** With `lambda = 0` and `alphaBar >= 0` the damping rotation is no
      rotation, so an iteration of `lsmr_damp` is an iteration of `lsmr`. */
  lemma ZeroDampIsPlain(sqrt: real -> real, alphaBar: real)
    requires IsSqrt(sqrt) && 0.0 <= alphaBar
    ensures DampRotation(sqrt, alphaBar, Some(0.0)) == DampRotation(sqrt, alphaBar, None)
  {
  }

  /** The rotations and estimates of one iteration, from the damping
      rotation `hat` and the new `alpha` and `beta`. */
  function Advance(sqrt: real -> real, s: Scalars, hat: Rot, alpha: real, beta: real, ii: int): (st: Step)
    requires IsSqrt(sqrt)
    ensures 0.0 <= s.normA2 ==>
      && st.normA == sqrt(s.normA2 + beta * beta)
      && st.next.normA2 == s.normA2 + beta * beta + alpha * alpha
      && 0.0 <= st.next.normA2
      && sqrt(s.normA2) <= st.normA <= sqrt(st.next.normA2)
    ensures st.next.maxRhoBar >= s.maxRhoBar && st.next.maxRhoBar >= s.rhoBar
    ensures ii <= 1 ==> st.next.minRhoBar == s.minRhoBar
    ensures 1 < ii ==> st.next.minRhoBar <= s.minRhoBar && st.next.minRhoBar <= s.rhoBar
    ensures st.condA == CondEstimate(st.next.maxRhoBar, st.next.minRhoBar, st.rhoTemp)
    ensures s.d <= st.next.d && 0.0 <= st.normar
    ensures 0.0 <= hat.rho && 0.0 <= alpha ==> 0.0 <= st.next.alphaBar
  {
    // rotation P_k
    var rhoOld := s.rho;
    var r := SymOrtho(sqrt, hat.rho, beta);
    var thetaNew := r.s * alpha;
    var alphaBar := r.c * alpha;
    // rotation Qbar_k
    var rhoBarOld := s.rhoBar;
    var zetaOld := s.zeta;
    var thetaBar := s.sBar * r.rho;
    var rhoTemp := s.cBar * r.rho;
    var rb := SymOrtho(sqrt, s.cBar * r.rho, thetaNew);
    var zeta := rb.c * s.zetaBar;
    var zetaBar := -rb.s * s.zetaBar;
    // coefficients of the h̅, x and h updates
    var hBarCoef := Quot(thetaBar * r.rho, rhoOld * rhoBarOld);
    var xCoef := Quot(zeta, r.rho * rb.rho);
    var hCoef := Quot(thetaNew, r.rho);
    // estimate of ||r||
    var res := ResidualRotation(hat, r, s.betaDd);
    var thetaTildeOld := s.thetaTilde;
    var rt := SymOrtho(sqrt, s.rhoDotOld, thetaBar);
    var thetaTilde := rt.s * rb.rho;
    var rhoDotOld := rt.c * rb.rho;
    var betaD := -rt.s * s.betaD + rt.c * res.betaHat;
    var tauTildeOld := Quot(zetaOld - thetaTildeOld * s.tauTildeOld, rt.rho);
    var tauDot := Quot(zeta - thetaTilde * tauTildeOld, rhoDotOld);
    var d := s.d + res.betaCheck * res.betaCheck;
    var normr := sqrt(d + (betaD - tauDot) * (betaD - tauDot) + res.betaDd * res.betaDd);
    // estimates of ||A|| and cond(A)
    var normA := sqrt(s.normA2 + beta * beta);
    var maxRhoBar := Max(s.maxRhoBar, rhoBarOld);
    var minRhoBar := if ii > 1 then Min(s.minRhoBar, rhoBarOld) else s.minRhoBar;
    var condA := CondEstimate(maxRhoBar, minRhoBar, rhoTemp);
    NormAEstimate(sqrt, s.normA2, beta, alpha);
    CosineTimesNorm(sqrt, hat.rho, beta, alpha);
    assert 0.0 <= res.betaCheck * res.betaCheck;
    Step(Scalars(zetaBar, alphaBar, r.rho, rb.rho, rb.c, rb.s,
                 res.betaDd, betaD, rhoDotOld, tauTildeOld, thetaTilde,
                 zeta, d, s.normA2 + beta * beta + alpha * alpha, maxRhoBar, minRhoBar),
         hBarCoef, xCoef, hCoef, rhoTemp, normr, normA, condA, Abs(zetaBar))
  }

  lemma CosineTimesNorm(sqrt: real -> real, a: real, b: real, alpha: real)
    requires IsSqrt(sqrt)
    ensures 0.0 <= a && 0.0 <= alpha ==> 0.0 <= SymOrtho(sqrt, a, b).c * alpha
  {
    if 0.0 <= a && 0.0 <= alpha {
      SymOrthoCosineSign(sqrt, a, b);
    }
  }

  /** Two consecutive iterations report non-decreasing `normA`. */
  lemma NormANonDecreasing(sqrt: real -> real, s: Scalars, h1: Rot, a1: real, b1: real, i1: int,
                           h2: Rot, a2: real, b2: real, i2: int)
    requires IsSqrt(sqrt) && 0.0 <= s.normA2
    ensures var st := Advance(sqrt, s, h1, a1, b1, i1);
      st.normA <= Advance(sqrt, st.next, h2, a2, b2, i2).normA
  {
    var st := Advance(sqrt, s, h1, a1, b1, i1);
    var st2 := Advance(sqrt, st.next, h2, a2, b2, i2);
    assert st.normA <= sqrt(st.next.normA2);
    assert sqrt(st.next.normA2) <= st2.normA;
  }

  // ---------------------------------------------------------------------
  // The drivers

  /** `M ? M->apply(x) : x`. */
  function Apply(m: Option<Vec -> Vec>, x: Vec): (y: Vec)
    requires m.Some? ==> Square(m.value, |x|)
    ensures |y| == |x|
    ensures m.None? ==> y == x
  {
    if m.Some? then m.value(x) else x
  }

  /** No test held before the last iteration, and the `normA` estimates
      never decrease. */
  predicate Running(trace: seq<Tests>, tol: Tol) {
    && (forall k :: 0 <= k < |trace| - 1 ==> FirstStop(trace[k], tol).None?)
    && (forall k :: 0 <= k < |trace| - 1 ==> trace[k].normA <= trace[k + 1].normA)
  }

  /** The iteration ran at most `maxIts` times, ended early only because a
      test held, and was `Running` until then. */
  predicate Stopped(trace: seq<Tests>, maxIts: int, tol: Tol) {
    && |trace| <= (if maxIts < 0 then 0 else maxIts)
    && (|trace| < maxIts ==> 0 < |trace| && FirstStop(trace[|trace| - 1], tol).Some?)
    && Running(trace, tol)
  }

  lemma RunningExtends(trace: seq<Tests>, e: Tests, tol: Tol)
    requires Running(trace, tol)
    requires 0 < |trace| ==> FirstStop(trace[|trace| - 1], tol).None? && trace[|trace| - 1].normA <= e.normA
    ensures Running(trace + [e], tol)
  {
    var t := trace + [e];
    forall k | 0 <= k < |t| - 1 ensures FirstStop(t[k], tol).None? && t[k].normA <= t[k + 1].normA {
      if k < |trace| - 1 {
        assert t[k] == trace[k] && t[k + 1] == trace[k + 1];
      } else {
        assert t[k] == trace[|trace| - 1] && t[k + 1] == e;
      }
    }
  }

  /** The updates of `h̅`, `x` and `h` with an iteration's coefficients,
      and the values the tests see. */
  method Update(sqrt: real -> real, st: Step, v: Vec, h: Vec, hbar: Vec, xs: Vec, normb: real)
    returns (h': Vec, hbar': Vec, xs': Vec, e: Tests)
    requires |v| == |h| == |hbar| == |xs|
    ensures hbar' == Sub(h, Scale(st.hBarCoef, hbar))
    ensures xs' == Add(xs, Scale(st.xCoef, hbar'))
    ensures h' == Sub(v, Scale(st.hCoef, h))
    ensures |h'| == |hbar'| == |xs'| == |v|
    ensures e == Tests(st.condA, st.normar, st.normA, st.normr, Norm(sqrt, xs'), normb)
  {
    hbar' := Sub(h, Scale(st.hBarCoef, hbar));
    xs' := Add(xs, Scale(st.xCoef, hbar'));
    h' := Sub(v, Scale(st.hCoef, h));
    e := Tests(st.condA, st.normar, st.normA, st.normr, Norm(sqrt, xs'), normb);
  }

  /** The Golub-Kahan vectors after a bidiagonalisation step: `M u`, `u`,
      the regularisation part `ur` of the left vector (empty in
      `lsmr_damp`, which has none), `v`, and the norms `alpha` and `beta`. */
  datatype Basis = Basis(Mu: Vec, u: Vec, ur: Vec, v: Vec, alpha: real, beta: real)

  predicate Fits(bs: Basis, op: Op) {
    |bs.Mu| == |bs.u| == op.rows && |bs.v| == op.cols
  }

  /** `bs` holds the left vector `r`, its preconditioned image and the
      regularisation part `rr`, each over their joint norm `beta`. */
  predicate LeftOf(sqrt: real -> real, m: Option<Vec -> Vec>, r: Vec, rr: Vec, bs: Basis)
    requires m.Some? ==> Square(m.value, |r|)
  {
    && bs.beta == sqrt(Dot(r, Apply(m, r)) + Dot(rr, rr))
    && bs.Mu == DivBy(r, bs.beta) && bs.u == DivBy(Apply(m, r), bs.beta) && bs.ur == DivBy(rr, bs.beta)
  }

  /** `bs` holds the right vector `w` over its norm `alpha`. */
  predicate RightOf(sqrt: real -> real, w: Vec, bs: Basis) {
    bs.alpha == Norm(sqrt, w) && bs.v == DivBy(w, bs.alpha)
  }

  /** What every driver assumes of the operator and the preconditioner. */
  ghost predicate Context(sqrt: real -> real, op: Op, m: Option<Vec -> Vec>) {
    IsSqrt(sqrt) && Shaped(op) && (m.Some? ==> Square(m.value, op.rows))
  }

  /** The state an iteration carries: the basis, the scalar recurrences,
      the search directions `h` and `h̅`, and the scaled solution. */
  datatype Iter = Iter(bs: Basis, sc: Scalars, h: Vec, hbar: Vec, xs: Vec)

  predicate IterFits(s: Iter, op: Op) {
    Fits(s.bs, op) && |s.h| == |s.hbar| == |s.xs| == op.cols && 0.0 <= s.sc.normA2
  }

  /** The state before the first iteration: `h = v`, `h̅ = 0`, the scalars
      of `Start` and the scaled solution `xs0`. */
  function Begin(b0: Basis, xs0: Vec): Iter {
    Iter(b0, Start(b0.alpha, b0.beta), b0.v, Zeros(|xs0|), xs0)
  }

  lemma AdvanceGrows(sqrt: real -> real, sc: Scalars, hat: Rot, alpha: real, beta: real, ii: int)
    requires IsSqrt(sqrt) && 0.0 <= sc.normA2
    ensures var st := Advance(sqrt, sc, hat, alpha, beta, ii);
      st.next.normA2 == sc.normA2 + beta * beta + alpha * alpha && sqrt(sc.normA2) <= st.normA <= sqrt(st.next.normA2)
  {
  }

  /** An iteration's new state and the values its tests see. */
  datatype Outcome = Outcome(s: Iter, e: Tests)

  /** The updates of `h̅`, `x` and `h` with the coefficients of `st`, and
      the tests of the new state. */
  function Moved(sqrt: real -> real, bs: Basis, st: Step, normb: real, s: Iter): (o: Outcome)
    requires |bs.v| == |s.h| == |s.hbar| == |s.xs|
    ensures o.s.bs == bs && o.s.sc == st.next && |o.s.h| == |o.s.hbar| == |o.s.xs| == |s.xs|
    ensures o.e.normA == st.normA && o.e.normx == Norm(sqrt, o.s.xs) && o.e.normb == normb
  {
    var hbar := Sub(s.h, Scale(st.hBarCoef, s.hbar));
    var xs := Add(s.xs, Scale(st.xCoef, hbar));
    Outcome(Iter(bs, st.next, Sub(bs.v, Scale(st.hCoef, s.h)), hbar, xs),
            Tests(st.condA, st.normar, st.normA, st.normr, Norm(sqrt, xs), normb))
  }

  /** One iteration after the bidiagonalisation step produced `bs`: the
      rotations and estimates of `Advance` with the damping rotation `hat`,
      then the updates of `h̅`, `x` and `h`.  The state takes the new basis
      and the tests see `‖x‖` of the new `x`; `NextNormA` states how the
      `normA` estimate moves. */
  function Next(sqrt: real -> real, bs: Basis, hat: Rot, ii: int, normb: real, s: Iter): (o: Outcome)
    requires IsSqrt(sqrt) && |bs.v| == |s.h| == |s.hbar| == |s.xs|
    ensures o.s.bs == bs && |o.s.h| == |o.s.hbar| == |o.s.xs| == |s.xs|
    ensures o.e.normx == Norm(sqrt, o.s.xs) && o.e.normb == normb
  {
    Moved(sqrt, bs, Advance(sqrt, s.sc, hat, bs.alpha, bs.beta, ii), normb, s)
  }

  /** `normA2` grows by `beta^2 + alpha^2` in an iteration, and the
      reported `normA` lies between the square roots of the old and the new
      `normA2`. */
  lemma NextNormA(sqrt: real -> real, bs: Basis, hat: Rot, ii: int, normb: real, s: Iter)
    requires IsSqrt(sqrt) && 0.0 <= s.sc.normA2 && |bs.v| == |s.h| == |s.hbar| == |s.xs|
    ensures var o := Next(sqrt, bs, hat, ii, normb, s);
      && o.s.sc.normA2 == s.sc.normA2 + bs.beta * bs.beta + bs.alpha * bs.alpha
      && sqrt(s.sc.normA2) <= o.e.normA <= sqrt(o.s.sc.normA2)
  {
    AdvanceGrows(sqrt, s.sc, hat, bs.alpha, bs.beta, ii);
  }

  /** One iteration after the bidiagonalisation step: the rotations and
      estimates of `Advance`, then the updates of `Update`; the outcome is
      the one `Next` specifies. */
  method Iterate(sqrt: real -> real, bs: Basis, hat: Rot, ii: int, normb: real, s: Iter) returns (o: Outcome)
    requires IsSqrt(sqrt) && 0.0 <= s.sc.normA2 && |bs.v| == |s.h| == |s.hbar| == |s.xs|
    ensures o == Next(sqrt, bs, hat, ii, normb, s)
  {
    var st := Advance(sqrt, s.sc, hat, bs.alpha, bs.beta, ii);
    var h, hbar, xs, e := Update(sqrt, st, bs.v, s.h, s.hbar, s.xs, normb);
    o := Outcome(Iter(bs, st.next, h, hbar, xs), e);
  }

  /** Which driver runs: `lsmr`, regularised with `sl = sqrt(lambda)`, or
      `lsmr_damp` with damping `lambda`. */
  datatype Driver = Regularised(sl: real) | Damped(lambda: real)

  /** The state of driver `dr` has the shapes of `op`; `lsmr` also carries
      `ur`, of the input's size. */
  predicate Keeps(dr: Driver, op: Op, s: Iter) {
    IterFits(s, op) && (if dr.Regularised? then |s.bs.ur| == op.cols else s.bs.ur == [])
  }

  /** The start basis of `lsmr`: with `x = x0 / ‖b‖`, the residual
      `b / ‖b‖ - A x` and the regularisation residual `(xr / ‖b‖ - x) sl`
      over their joint norm `beta`, then `A^T u + sl ur` over its norm
      `alpha`. */
  function RegularisedInit(sqrt: real -> real, op: Op, b: Vec, x0: Vec, sl: real, xr: Vec, m: Option<Vec -> Vec>): (bs: Basis)
    requires Context(sqrt, op, m) && |b| == op.rows && |x0| == op.cols && |xr| == op.cols
    ensures Fits(bs, op) && |bs.ur| == op.cols
    ensures var xs := DivBy(x0, Norm(sqrt, b));
      LeftOf(sqrt, m, Sub(DivBy(b, Norm(sqrt, b)), op.fwd(xs)), Sub(Scale(Quot(sl, Norm(sqrt, b)), xr), Scale(sl, xs)), bs)
    ensures RightOf(sqrt, Add(op.adj(bs.u), Scale(sl, bs.ur)), bs)
  {
    var scale := Norm(sqrt, b);
    var xs := DivBy(x0, scale);
    var r := Sub(DivBy(b, scale), op.fwd(xs));
    var rr := Sub(Scale(Quot(sl, scale), xr), Scale(sl, xs));
    var beta := sqrt(Dot(r, Apply(m, r)) + Dot(rr, rr));
    var u := DivBy(Apply(m, r), beta);
    var ur := DivBy(rr, beta);
    var w := Add(op.adj(u), Scale(sl, ur));
    var alpha := Norm(sqrt, w);
    Basis(DivBy(r, beta), u, ur, DivBy(w, alpha), alpha, beta)
  }

  /** The start of `lsmr`, as `RegularisedInit` specifies. */
  method RegularisedStart(sqrt: real -> real, op: Op, b: Vec, x0: Vec, sl: real, xr: Vec, m: Option<Vec -> Vec>)
    returns (scale: real, xs: Vec, bs: Basis)
    requires Context(sqrt, op, m) && |b| == op.rows && |x0| == op.cols && |xr| == op.cols
    ensures scale == Norm(sqrt, b) && xs == DivBy(x0, scale)
    ensures bs == RegularisedInit(sqrt, op, b, x0, sl, xr, m)
  {
    scale := Norm(sqrt, b);
    xs := DivBy(x0, scale);
    var Mu := Sub(DivBy(b, scale), op.fwd(xs));
    var u := Apply(m, Mu);
    var ur := Sub(Scale(Quot(sl, scale), xr), Scale(sl, xs));
    var beta := sqrt(Dot(Mu, u) + Dot(ur, ur));
    Mu, u, ur := DivBy(Mu, beta), DivBy(u, beta), DivBy(ur, beta);
    var v := Add(op.adj(u), Scale(sl, ur));
    var alpha := Norm(sqrt, v);
    v := DivBy(v, alpha);
    bs := Basis(Mu, u, ur, v, alpha, beta);
    assert LeftOf(sqrt, m, Sub(DivBy(b, scale), op.fwd(xs)), Sub(Scale(Quot(sl, scale), xr), Scale(sl, xs)), bs);
  }

  /** A bidiagonalisation step of `lsmr`: `A v - alpha Mu` and
      `sl v - alpha ur` over their joint norm `beta`, then
      `A^T u + sl ur - beta v` over its norm `alpha`. */
  function RegularisedBasis(sqrt: real -> real, op: Op, m: Option<Vec -> Vec>, sl: real, b0: Basis): (bs: Basis)
    requires Context(sqrt, op, m) && Fits(b0, op) && |b0.ur| == op.cols
    ensures Fits(bs, op) && |bs.ur| == op.cols
    ensures LeftOf(sqrt, m, Sub(op.fwd(b0.v), Scale(b0.alpha, b0.Mu)), Sub(Scale(sl, b0.v), Scale(b0.alpha, b0.ur)), bs)
    ensures RightOf(sqrt, Sub(Add(op.adj(bs.u), Scale(sl, bs.ur)), Scale(bs.beta, b0.v)), bs)
  {
    var r := Sub(op.fwd(b0.v), Scale(b0.alpha, b0.Mu));
    var rr := Sub(Scale(sl, b0.v), Scale(b0.alpha, b0.ur));
    var beta := sqrt(Dot(r, Apply(m, r)) + Dot(rr, rr));
    var u := DivBy(Apply(m, r), beta);
    var ur := DivBy(rr, beta);
    var w := Sub(Add(op.adj(u), Scale(sl, ur)), Scale(beta, b0.v));
    var alpha := Norm(sqrt, w);
    Basis(DivBy(r, beta), u, ur, DivBy(w, alpha), alpha, beta)
  }

  /** The step of `lsmr`, as `RegularisedBasis` specifies. */
  method RegularisedStep(sqrt: real -> real, op: Op, m: Option<Vec -> Vec>, sl: real, b0: Basis)
    returns (bs: Basis)
    requires Context(sqrt, op, m) && Fits(b0, op) && |b0.ur| == op.cols
    ensures bs == RegularisedBasis(sqrt, op, m, sl, b0)
  {
    var Mu := Sub(op.fwd(b0.v), Scale(b0.alpha, b0.Mu));
    var u := Apply(m, Mu);
    var ur := Sub(Scale(sl, b0.v), Scale(b0.alpha, b0.ur));
    var beta := sqrt(Dot(Mu, u) + Dot(ur, ur));
    Mu, u, ur := DivBy(Mu, beta), DivBy(u, beta), DivBy(ur, beta);
    var v := Sub(Add(op.adj(u), Scale(sl, ur)), Scale(beta, b0.v));
    var alpha := Norm(sqrt, v);
    v := DivBy(v, alpha);
    bs := Basis(Mu, u, ur, v, alpha, beta);
    assert LeftOf(sqrt, m, Sub(op.fwd(b0.v), Scale(b0.alpha, b0.Mu)), Sub(Scale(sl, b0.v), Scale(b0.alpha, b0.ur)), bs);
  }

  /** The start basis of `lsmr_damp`: `b / ‖b‖` and its preconditioned
      image over their `M`-norm `beta`, then `A^T u` over its norm `alpha`. */
  function DampedInit(sqrt: real -> real, op: Op, b: Vec, m: Option<Vec -> Vec>): (bs: Basis)
    requires Context(sqrt, op, m) && |b| == op.rows
    ensures Fits(bs, op) && bs.ur == []
    ensures var r := DivBy(b, Norm(sqrt, b));
      && bs.beta == sqrt(Dot(Apply(m, r), r))
      && bs.Mu == DivBy(r, bs.beta) && bs.u == DivBy(Apply(m, r), bs.beta)
    ensures RightOf(sqrt, op.adj(bs.u), bs)
  {
    var r := DivBy(b, Norm(sqrt, b));
    var beta := sqrt(Dot(Apply(m, r), r));
    var u := DivBy(Apply(m, r), beta);
    var alpha := Norm(sqrt, op.adj(u));
    Basis(DivBy(r, beta), u, [], DivBy(op.adj(u), alpha), alpha, beta)
  }

  /** The start of `lsmr_damp`, as `DampedInit` specifies. */
  method DampedStart(sqrt: real -> real, op: Op, b: Vec, m: Option<Vec -> Vec>)
    returns (scale: real, bs: Basis)
    requires Context(sqrt, op, m) && |b| == op.rows
    ensures scale == Norm(sqrt, b)
    ensures bs == DampedInit(sqrt, op, b, m)
  {
    scale := Norm(sqrt, b);
    var Mu := DivBy(b, scale);
    var u := Apply(m, Mu);
    var beta := sqrt(Dot(u, Mu));
    Mu, u := DivBy(Mu, beta), DivBy(u, beta);
    var v := op.adj(u);
    var alpha := Norm(sqrt, v);
    v := DivBy(v, alpha);
    bs := Basis(Mu, u, [], v, alpha, beta);
  }

  /** A bidiagonalisation step of `lsmr_damp`: `A v - alpha Mu` over its
      `M`-norm `beta`, then `A^T u - beta v` over its norm `alpha`. */
  function DampedBasis(sqrt: real -> real, op: Op, m: Option<Vec -> Vec>, b0: Basis): (bs: Basis)
    requires Context(sqrt, op, m) && Fits(b0, op)
    ensures Fits(bs, op) && bs.ur == []
    ensures LeftOf(sqrt, m, Sub(op.fwd(b0.v), Scale(b0.alpha, b0.Mu)), [], bs)
    ensures RightOf(sqrt, Sub(op.adj(bs.u), Scale(bs.beta, b0.v)), bs)
  {
    var r := Sub(op.fwd(b0.v), Scale(b0.alpha, b0.Mu));
    var beta := sqrt(Dot(r, Apply(m, r)));
    var u := DivBy(Apply(m, r), beta);
    var w := Sub(op.adj(u), Scale(beta, b0.v));
    var alpha := Norm(sqrt, w);
    assert Dot([], []) == 0.0 && DivBy([], beta) == [];
    Basis(DivBy(r, beta), u, [], DivBy(w, alpha), alpha, beta)
  }

  /** The step of `lsmr_damp`, as `DampedBasis` specifies. */
  method DampedStep(sqrt: real -> real, op: Op, m: Option<Vec -> Vec>, b0: Basis)
    returns (bs: Basis)
    requires Context(sqrt, op, m) && Fits(b0, op)
    ensures bs == DampedBasis(sqrt, op, m, b0)
  {
    var Mu := Sub(op.fwd(b0.v), Scale(b0.alpha, b0.Mu));
    var u := Apply(m, Mu);
    var beta := sqrt(Dot(Mu, u));
    Mu, u := DivBy(Mu, beta), DivBy(u, beta);
    var v := Sub(op.adj(u), Scale(beta, b0.v));
    var alpha := Norm(sqrt, v);
    v := DivBy(v, alpha);
    bs := Basis(Mu, u, [], v, alpha, beta);
  }

  /** One iteration of driver `dr`: its bidiagonalisation step, then `Next`
      with its damping rotation (none for `lsmr`, `SymOrtho(alphaBar,
      lambda)` for `lsmr_damp`).  The state keeps its shapes and the
      reported `normA` lies between the old and the new root of `normA2`. */
  function Iteration(sqrt: real -> real, op: Op, m: Option<Vec -> Vec>, dr: Driver, ii: int, normb: real, s: Iter): (o: Outcome)
    requires Context(sqrt, op, m) && Keeps(dr, op, s)
    ensures Keeps(dr, op, o.s)
    ensures sqrt(s.sc.normA2) <= o.e.normA <= sqrt(o.s.sc.normA2)
  {
    var bs := if dr.Regularised? then RegularisedBasis(sqrt, op, m, dr.sl, s.bs) else DampedBasis(sqrt, op, m, s.bs);
    var hat := DampRotation(sqrt, s.sc.alphaBar, if dr.Damped? then Some(dr.lambda) else None);
    NextNormA(sqrt, bs, hat, ii, normb, s);
    Next(sqrt, bs, hat, ii, normb, s)
  }

  /** The state after `k` iterations of driver `dr` from `s0`; the tests
      compare against the first `beta`, which is `‖b‖` of the scaled problem. */
  function After(sqrt: real -> real, op: Op, m: Option<Vec -> Vec>, dr: Driver, s0: Iter, k: nat): (s: Iter)
    requires Context(sqrt, op, m) && Keeps(dr, op, s0)
    ensures Keeps(dr, op, s)
    decreases k
  {
    if k == 0 then s0
    else Iteration(sqrt, op, m, dr, k - 1, s0.bs.beta, After(sqrt, op, m, dr, s0, k - 1)).s
  }

  /** The tests the first `k` iterations report.  The `normA` estimates
      never decrease, and the last is at most the root of the `normA2` the
      state after `k` iterations holds. */
  function Trace(sqrt: real -> real, op: Op, m: Option<Vec -> Vec>, dr: Driver, s0: Iter, k: nat): (t: seq<Tests>)
    requires Context(sqrt, op, m) && Keeps(dr, op, s0)
    ensures |t| == k
    ensures forall j :: 0 < j < k ==> t[j - 1].normA <= t[j].normA
    ensures 0 < k ==> t[k - 1].normA <= sqrt(After(sqrt, op, m, dr, s0, k).sc.normA2)
    decreases k
  {
    if k == 0 then []
    else
      var t := Trace(sqrt, op, m, dr, s0, k - 1);
      t + [Iteration(sqrt, op, m, dr, k - 1, s0.bs.beta, After(sqrt, op, m, dr, s0, k - 1)).e]
  }

  /** One iteration of `lsmr`: its step, then `Iterate` with no damping
      rotation; the outcome is the one `Iteration` specifies. */
  method RegularisedIteration(sqrt: real -> real, op: Op, m: Option<Vec -> Vec>, sl: real, ii: int, normb: real, s0: Iter)
    returns (o: Outcome)
    requires Context(sqrt, op, m) && Keeps(Regularised(sl), op, s0)
    ensures o == Iteration(sqrt, op, m, Regularised(sl), ii, normb, s0)
  {
    var bs := RegularisedStep(sqrt, op, m, sl, s0.bs);
    o := Iterate(sqrt, bs, Rot(1.0, 0.0, s0.sc.alphaBar), ii, normb, s0);
  }

  /** One iteration of `lsmr_damp`: its step, then `Iterate` with the
      damping rotation; the outcome is the one `Iteration` specifies. */
  method DampedIteration(sqrt: real -> real, op: Op, m: Option<Vec -> Vec>, lambda: real, ii: int, normb: real, s0: Iter)
    returns (o: Outcome)
    requires Context(sqrt, op, m) && Keeps(Damped(lambda), op, s0)
    ensures o == Iteration(sqrt, op, m, Damped(lambda), ii, normb, s0)
  {
    var bs := DampedStep(sqrt, op, m, s0.bs);
    var hat := DampRotation(sqrt, s0.sc.alphaBar, Some(lambda));
    o := Iterate(sqrt, bs, hat, ii, normb, s0);
  }

  /** `s` and `trace` are the state and the tests after `|trace|`
      iterations of driver `dr` from `s0`.  This is stated for every `n`
      equal to `|trace|`, which lets the solver unfold `After` and `Trace`
      only where a proof asks for them. */
  ghost predicate Reached(sqrt: real -> real, op: Op, m: Option<Vec -> Vec>, dr: Driver, s0: Iter, s: Iter, trace: seq<Tests>) {
    && Context(sqrt, op, m) && Keeps(dr, op, s0)
    && forall n: nat :: n == |trace| ==>
         s == After(sqrt, op, m, dr, s0, n) && trace == Trace(sqrt, op, m, dr, s0, n)
  }

  /** One more iteration extends the state and the trace by the outcome of
      `Iteration` from the state after `k` iterations. */
  lemma AfterStep(sqrt: real -> real, op: Op, m: Option<Vec -> Vec>, dr: Driver, s0: Iter, k: nat)
    requires Context(sqrt, op, m) && Keeps(dr, op, s0)
    ensures var o := Iteration(sqrt, op, m, dr, k, s0.bs.beta, After(sqrt, op, m, dr, s0, k));
      && After(sqrt, op, m, dr, s0, k + 1) == o.s
      && Trace(sqrt, op, m, dr, s0, k + 1) == Trace(sqrt, op, m, dr, s0, k) + [o.e]
  {
  }

  /** One pass of the loop body of driver `dr`: the iteration from the
      state `Reached` after `ii` iterations, whose tests extend the trace. */
  method Proceed(sqrt: real -> real, op: Op, m: Option<Vec -> Vec>, dr: Driver, ghost s0: Iter, normb: real, ii: int,
                 s: Iter, ghost trace: seq<Tests>)
    returns (s': Iter, e: Tests, ghost trace': seq<Tests>)
    requires Reached(sqrt, op, m, dr, s0, s, trace) && ii == |trace| && normb == s0.bs.beta
    ensures trace' == trace + [e] && Reached(sqrt, op, m, dr, s0, s', trace')
    ensures 0 < |trace| ==> trace[|trace| - 1].normA <= e.normA
  {
    assert s == After(sqrt, op, m, dr, s0, ii) && trace == Trace(sqrt, op, m, dr, s0, ii);
    var o;
    if dr.Regularised? {
      o := RegularisedIteration(sqrt, op, m, dr.sl, ii, normb, s);
    } else {
      o := DampedIteration(sqrt, op, m, dr.lambda, ii, normb, s);
    }
    AfterStep(sqrt, op, m, dr, s0, ii);
    s', e, trace' := o.s, o.e, trace + [o.e];
  }

  /** The iterations of `lsmr` from the start basis and the scaled warm
      start `xs0`: they stop as `Stopped` says, report the tests of `Trace`
      and leave the solution of `After`. */
  method RegularisedLoop(sqrt: real -> real, maxIts: int, op: Op, m: Option<Vec -> Vec>, sl: real, tol: Tol,
                         b0: Basis, xs0: Vec)
    returns (xs: Vec, ghost trace: seq<Tests>)
    requires Context(sqrt, op, m) && Fits(b0, op) && |b0.ur| == |xs0| == op.cols
    ensures Stopped(trace, maxIts, tol)
    ensures trace == Trace(sqrt, op, m, Regularised(sl), Begin(b0, xs0), |trace|)
    ensures xs == After(sqrt, op, m, Regularised(sl), Begin(b0, xs0), |trace|).xs
  {
    ghost var s0 := Begin(b0, xs0);
    var s := Iter(b0, Start(b0.alpha, b0.beta), b0.v, Zeros(op.cols), xs0);
    var normb := b0.beta;
    var ii := 0;
    var stop: Option<Stop> := None;
    trace := [];
    while ii < maxIts && stop.None?
      invariant 0 <= ii == |trace| && (ii <= maxIts || ii == 0)
      invariant stop == (if ii == 0 then None else FirstStop(trace[ii - 1], tol))
      invariant Running(trace, tol)
      invariant Reached(sqrt, op, m, Regularised(sl), s0, s, trace)
      decreases maxIts - ii
    {
      ghost var before := trace;
      var e;
      s, e, trace := Proceed(sqrt, op, m, Regularised(sl), s0, normb, ii, s, trace);
      RunningExtends(before, e, tol);
      stop := FirstStop(e, tol);
      ii := ii + 1;
    }
    xs := s.xs;
  }

  /** The state `lsmr` starts its iterations from. */
  function RegularisedBegin(sqrt: real -> real, op: Op, b: Vec, x0: Vec, lambda: real, xr: Vec, m: Option<Vec -> Vec>): Iter
    requires Context(sqrt, op, m) && |b| == op.rows && |x0| == op.cols && |xr| == op.cols
  {
    Begin(RegularisedInit(sqrt, op, b, x0, sqrt(lambda), xr, m), DivBy(x0, Norm(sqrt, b)))
  }

  /** `lsmr`: regularised LSMR with a warm start, solving
      `(A^T A + lambda I) x = A^T b + lambda xr`.  The problem is scaled by
      `‖b‖`: the result is `‖b‖` times the scaled solution after the
      iterations `Trace` reports, and with no iterations the warm start
      comes back unchanged. */
  method Run(sqrt: real -> real, maxIts: int, op: Op, b: Vec, x0: Vec, lambda: real, xr: Vec,
             m: Option<Vec -> Vec>, tol: Tol)
    returns (x: Vec, ghost trace: seq<Tests>)
    requires Context(sqrt, op, m) && |b| == op.rows && |x0| == op.cols && |xr| == op.cols
    requires 0.0 <= lambda
    ensures |x| == op.cols
    ensures Stopped(trace, maxIts, tol)
    ensures trace == Trace(sqrt, op, m, Regularised(sqrt(lambda)), RegularisedBegin(sqrt, op, b, x0, lambda, xr, m), |trace|)
    ensures x == Scale(Norm(sqrt, b),
      After(sqrt, op, m, Regularised(sqrt(lambda)), RegularisedBegin(sqrt, op, b, x0, lambda, xr, m), |trace|).xs)
    ensures maxIts <= 0 && Norm(sqrt, b) != 0.0 ==> x == x0
  {
    var sl := sqrt(lambda);
    var scale, xs, bs := RegularisedStart(sqrt, op, b, x0, sl, xr, m);
    if scale != 0.0 {
      ScaleUndoesDivBy(x0, scale);
    }
    xs, trace := RegularisedLoop(sqrt, maxIts, op, m, sl, tol, bs, xs);
    x := Scale(scale, xs);
  }

  /** The iterations of `lsmr_damp` from the start basis and `x = 0`: they
      stop as `Stopped` says, report the tests of `Trace` and leave the
      solution of `After`. */
  method DampedLoop(sqrt: real -> real, maxIts: int, op: Op, m: Option<Vec -> Vec>, lambda: real, tol: Tol, b0: Basis)
    returns (xs: Vec, ghost trace: seq<Tests>)
    requires Context(sqrt, op, m) && Fits(b0, op) && b0.ur == []
    ensures Stopped(trace, maxIts, tol)
    ensures trace == Trace(sqrt, op, m, Damped(lambda), Begin(b0, Zeros(op.cols)), |trace|)
    ensures xs == After(sqrt, op, m, Damped(lambda), Begin(b0, Zeros(op.cols)), |trace|).xs
  {
    ghost var s0 := Begin(b0, Zeros(op.cols));
    var s := Iter(b0, Start(b0.alpha, b0.beta), b0.v, Zeros(op.cols), Zeros(op.cols));
    var normb := b0.beta;
    var ii := 0;
    var stop: Option<Stop> := None;
    trace := [];
    while ii < maxIts && stop.None?
      invariant 0 <= ii == |trace| && (ii <= maxIts || ii == 0)
      invariant stop == (if ii == 0 then None else FirstStop(trace[ii - 1], tol))
      invariant Running(trace, tol)
      invariant Reached(sqrt, op, m, Damped(lambda), s0, s, trace)
      decreases maxIts - ii
    {
      ghost var before := trace;
      var e;
      s, e, trace := Proceed(sqrt, op, m, Damped(lambda), s0, normb, ii, s, trace);
      RunningExtends(before, e, tol);
      stop := FirstStop(e, tol);
      ii := ii + 1;
    }
    xs := s.xs;
  }

  /** `lsmr_damp`: LSMR with Tikhonov damping `lambda`, solving
      `(A^T A + lambda^2 I) x = A^T b` from `x = 0`.  The result is `‖b‖`
      times the scaled solution after the iterations `Trace` reports; with
      no iterations it is zero. */
  method RunDamped(sqrt: real -> real, maxIts: int, op: Op, b: Vec, m: Option<Vec -> Vec>, tol: Tol, lambda: real)
    returns (x: Vec, ghost trace: seq<Tests>)
    requires Context(sqrt, op, m) && |b| == op.rows
    ensures |x| == op.cols
    ensures Stopped(trace, maxIts, tol)
    ensures trace == Trace(sqrt, op, m, Damped(lambda), Begin(DampedInit(sqrt, op, b, m), Zeros(op.cols)), |trace|)
    ensures x == Scale(Norm(sqrt, b), After(sqrt, op, m, Damped(lambda), Begin(DampedInit(sqrt, op, b, m), Zeros(op.cols)), |trace|).xs)
    ensures maxIts <= 0 ==> x == Zeros(op.cols)
  {
    var scale, bs := DampedStart(sqrt, op, b, m);
    var xs;
    xs, trace := DampedLoop(sqrt, maxIts, op, m, lambda, tol, bs);
    x := Scale(scale, xs);
  }
}
