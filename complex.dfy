/** The single-precision complex samples of the tensors (`Cx`), as exact pairs
    of reals. */
module Complex {

  datatype Cx = Cx(re: real, im: real)

  const Zero: Cx := Cx(0.0, 0.0)
  const One: Cx := Cx(1.0, 0.0)

  function OfReal(r: real): Cx { Cx(r, 0.0) }

  function Add(a: Cx, b: Cx): Cx { Cx(a.re + b.re, a.im + b.im) }

  function Mul(a: Cx, b: Cx): Cx { Cx(a.re * b.re - a.im * b.im, a.re * b.im + a.im * b.re) }

  function Conj(a: Cx): Cx { Cx(a.re, -a.im) }

  lemma MulDistributesOverAdd(a: Cx, b: Cx, c: Cx)
    ensures Mul(a, Add(b, c)) == Add(Mul(a, b), Mul(a, c))
  {
    assert a.re * (b.re + c.re) == a.re * b.re + a.re * c.re;
    assert a.im * (b.im + c.im) == a.im * b.im + a.im * c.im;
    assert a.re * (b.im + c.im) == a.re * b.im + a.re * c.im;
    assert a.im * (b.re + c.re) == a.im * b.re + a.im * c.re;
  }

  lemma MulZero(a: Cx)
    ensures Mul(a, Zero) == Zero && Mul(Zero, a) == Zero
  {
  }

  lemma MulOne(a: Cx)
    ensures Mul(a, One) == a && Mul(One, a) == a
  {
  }

  lemma ConjMul(a: Cx, b: Cx)
    ensures Conj(Mul(a, b)) == Mul(Conj(a), Conj(b))
  {
  }

  lemma MulAssociates(a: Cx, b: Cx, c: Cx)
    ensures Mul(Mul(a, b), c) == Mul(a, Mul(b, c))
  {
    assert (a.re * b.re) * c.re == a.re * (b.re * c.re);
    assert (a.im * b.im) * c.re == a.im * (b.im * c.re);
    assert (a.re * b.im) * c.im == a.re * (b.im * c.im);
    assert (a.im * b.re) * c.im == a.im * (b.re * c.im);
    assert (a.re * b.re) * c.im == a.re * (b.re * c.im);
    assert (a.im * b.im) * c.im == a.im * (b.im * c.im);
    assert (a.re * b.im) * c.re == a.re * (b.im * c.re);
    assert (a.im * b.re) * c.re == a.im * (b.re * c.re);
  }

  /** `a` times its conjugate is the real `|a|^2`. */
  lemma MulConjIsNormSquared(a: Cx)
    ensures Mul(a, Conj(a)) == OfReal(a.re * a.re + a.im * a.im)
  {
  }
}
