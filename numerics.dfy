/** Exact stand-ins for the C++ numerics that the core relies on: square roots,
    `std::copysign(1, x)`, truncating integer division, and the IEEE outcomes of
    a division by zero where a stopping test depends on them. */
module Numerics {

  /** `sqrt` behaves as the square root on the non-negative reals.  No square
      root is definable here, so every model that needs one takes it as a
      parameter constrained by this predicate. */
  ghost predicate IsSqrt(sqrt: real -> real) {
    forall x: real :: 0.0 <= x ==> 0.0 <= sqrt(x) && sqrt(x) * sqrt(x) == x
  }

  /** A non-negative root is the root. */
  lemma SqrtUnique(sqrt: real -> real, x: real, r: real)
    requires IsSqrt(sqrt)
    requires 0.0 <= r && r * r == x
    ensures sqrt(x) == r
  {
    var s := sqrt(x);
    assert 0.0 <= s && s * s == x;
    assert (s - r) * (s + r) == 0.0;
    if s + r == 0.0 {
      assert s == 0.0 && r == 0.0;
    } else {
      assert s - r == 0.0;
    }
  }

  lemma SqrtMonotone(sqrt: real -> real, p: real, q: real)
    requires IsSqrt(sqrt)
    requires 0.0 <= p <= q
    ensures sqrt(p) <= sqrt(q)
  {
    var a, b := sqrt(p), sqrt(q);
    assert 0.0 <= a && a * a == p;
    assert 0.0 <= b && b * b == q;
    if b < a {
      SquareLess(b, a);
    }
  }

  lemma SquareLess(x: real, y: real)
    requires 0.0 <= x < y
    ensures x * x < y * y
  {
    var xx, xy, yy := x * x, x * y, y * y;
    assert xx <= xy;
    assert xy < yy;
  }

  lemma SqrtPositive(sqrt: real -> real, x: real)
    requires IsSqrt(sqrt)
    requires 0.0 < x
    ensures 0.0 < sqrt(x)
  {
    assert sqrt(x) * sqrt(x) == x;
  }

  /** `std::copysign(1.f, x)`.  Reals carry no signed zero: a zero counts as +0. */
  function CopySign1(x: real): (r: real)
    ensures r * r == 1.0
    ensures r * x == Abs(x)
  {
    if x < 0.0 then -1.0 else 1.0
  }

  function Abs(x: real): (r: real)
    ensures 0.0 <= r && r * r == x * x
    ensures r == x || r == -x
  {
    if x < 0.0 then -x else x
  }

  function Max(a: real, b: real): real { if a < b then b else a }

  function Min(a: real, b: real): real { if a < b then a else b }

  /** C++ integer `/`: the quotient is truncated toward zero.  (Dafny's own `/`
      on `int` rounds toward minus infinity when the divisor is positive.) */
  function CDiv(a: int, b: int): (q: int)
    requires b != 0
    ensures 0 <= a && 0 < b ==> q == a / b
    ensures a < 0 && 0 < b ==> q == -((-a) / b)
  {
    var m := (if a < 0 then -a else a) / (if b < 0 then -b else b);
    if (a < 0) == (b < 0) then m else -m
  }

  /** C++ conversion to `int8_t`: the value wraps modulo 256 into
      `[-128, 128)`, so a value already in range is kept. */
  function Int8(v: int): (r: int)
    ensures -128 <= r < 128 && (v - r) % 256 == 0
    ensures -128 <= v < 128 ==> r == v
  {
    (v + 128) % 256 - 128
  }

  /** `(-w) / 2` in C++ is `-(w / 2)`, never `-(w / 2) - 1`. */
  lemma CDivNegate(w: int, b: int)
    requires 0 < b
    ensures CDiv(-w, b) == -CDiv(w, b)
  {
    if w < 0 {
      assert CDiv(w, b) == -((-w) / b);
    } else if w > 0 {
      assert CDiv(-w, b) == -(w / b);
    }
  }

  /** A division whose divisor may be zero, where the source divides by a norm
      or a rotation output that is zero only in degenerate cases: the model
      takes the exact quotient when the divisor is non-zero and 0 otherwise
      (IEEE arithmetic would produce an infinity or a NaN). */
  function Quot(p: real, q: real): (r: real)
    ensures q != 0.0 ==> r * q == p
  {
    if q == 0.0 then 0.0 else p / q
  }

  /** The value of an IEEE single-precision expression with rounding ignored:
      a real, an infinity or not-a-number. */
  datatype Ext = Finite(v: real) | PosInf | NegInf | NaN

  /** `p / q` with IEEE's outcomes for a zero divisor (taken as +0). */
  function Divide(p: real, q: real): (e: Ext)
    ensures e.Finite? <==> q != 0.0
    ensures e.Finite? ==> e.v * q == p
    ensures e.NaN? <==> q == 0.0 && p == 0.0
  {
    if q != 0.0 then Finite(p / q)
    else if 0.0 < p then PosInf
    else if p < 0.0 then NegInf
    else NaN
  }

  /** `1 / e`. */
  function Reciprocal(e: Ext): (r: Ext)
    ensures e.PosInf? || e.NegInf? ==> r == Finite(0.0)
    ensures e.NaN? ==> r.NaN?
  {
    match e
    case Finite(v) => Divide(1.0, v)
    case PosInf => Finite(0.0)
    case NegInf => Finite(0.0)
    case NaN => NaN
  }

  /** `e <= t`: false for NaN and +inf, true for -inf. */
  predicate AtMost(e: Ext, t: real) {
    match e
    case Finite(v) => v <= t
    case PosInf => false
    case NegInf => true
    case NaN => false
  }

  /** The machine-precision test `1 + e <= 1` read over the reals: it holds
      exactly when `e <= 0`. */
  predicate Negligible(e: Ext) {
    AtMost(e, 0.0)
  }

  /** Integer facts about products and quotients by a variable, proved once
      with nothing else in scope. */
  lemma MulMonotone(a: int, b: int, w: int)
    requires a <= b && 0 <= w
    ensures a * w <= b * w
  {
    assert (b - a) * w >= 0;
  }

  /** Block `k < w` of slab `q` sits at `q * w + k`, and `/`, `%` recover both. */
  lemma DivModUnique(q: int, k: int, w: int)
    requires 0 <= k < w
    ensures (q * w + k) / w == q && (q * w + k) % w == k
  {
    var j := q * w + k;
    var q', r := j / w, j % w;
    assert j == q' * w + r && 0 <= r < w;
    assert (q' - q) * w == k - r;
    if q' > q {
      MulMonotone(1, q' - q, w);
    } else if q' < q {
      MulMonotone(1, q - q', w);
    }
  }

  /** A position below `n * w` lies in block `j / w`, which is below `n`. */
  lemma DivBelow(j: nat, w: int, n: nat)
    requires j < n * w
    ensures 0 < w && j / w < n && (j / w) * w + j % w == j && 0 <= j % w < w
  {
    var q := j / w;
    if q >= n {
      MulMonotone(n, q, w);
    }
  }
}
