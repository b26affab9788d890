/** The nearest-neighbour gridding kernel (`NearestNeighbour`, src/kernel_nn.cpp):
    a cubic footprint of width `w` whose k-space weights are a single unit spike
    at the centre and whose image-space weights are a constant. */
module KernelNN {
  import opened Numerics
  import opened Complex

  datatype NearestNeighbour = NearestNeighbour(w: int) {

    /** `w / 2`: the distance from the centre to the footprint's edge;
        for a non-negative width it is the floor of half the width. */
    function Radius(): (r: int)
      ensures 0 <= w ==> 0 <= r && 2 * r <= w <= 2 * r + 1
    {
      CDiv(w, 2)
    }

    /** `(-w) / 2` on each axis, with C++'s truncating division. */
    function Start(): (s: seq<int>)
      ensures |s| == 3
      ensures forall d :: 0 <= d < 3 ==> s[d] == -Radius()
    {
      CDivNegate(w, 2);
      [CDiv(-w, 2), CDiv(-w, 2), CDiv(-w, 2)]
    }

    function Size(): (s: seq<int>)
      ensures |s| == 3 && forall d :: 0 <= d < 3 ==> s[d] == w
    {
      [w, w, w]
    }

    /** The k-space kernel: zero except for a unit weight at the centre index
        `w / 2` on every axis, whatever the sample's sub-grid offset. */
    method KSpace(offset: (real, real, real)) returns (k: array3<Cx>)
      requires 1 <= w
      ensures k.Length0 == w && k.Length1 == w && k.Length2 == w
      ensures forall i, j, l :: 0 <= i < w && 0 <= j < w && 0 <= l < w ==>
        k[i, j, l] == (if i == Radius() && j == Radius() && l == Radius() then One else Zero)
    {
      k := new Cx[w, w, w]((i, j, l) => Zero);
      k[CDiv(w, 2), CDiv(w, 2), CDiv(w, 2)] := One;
    }

    /** The image-space kernel: the constant `1 / sqrt(w^3)` everywhere. */
    method Image(sqrt: real -> real, offset: (real, real, real), dims: (int, int, int)) returns (k: array3<Cx>)
      requires IsSqrt(sqrt)
      requires 1 <= w
      ensures k.Length0 == w && k.Length1 == w && k.Length2 == w
      ensures forall i, j, l :: 0 <= i < w && 0 <= j < w && 0 <= l < w ==>
        k[i, j, l] == OfReal(ImageWeight(sqrt))
    {
      var c := OfReal(ImageWeight(sqrt));
      k := new Cx[w, w, w]((i, j, l) => c);
    }

    function ImageWeight(sqrt: real -> real): real
      requires IsSqrt(sqrt)
      requires 1 <= w
    {
      SqrtPositive(sqrt, (w * w * w) as real);
      1.0 / sqrt((w * w * w) as real)
    }

    /** The sensitivity kernels pass through unchanged. */
    function Sensitivity<S>(x: (real, real, real), s: S): (r: S)
      ensures r == s
    {
      s
    }

    /** The apodization callback does nothing to the image it is given. */
    method Apodize(image: array3<Cx>, adjoint: bool)
      ensures unchanged(image)
    {
    }
  }

  /** The unit k-space weight sits at offset zero of the footprint: the centre
      index `w / 2` measured from `Start()`. */
  lemma CentreIsOrigin(k: NearestNeighbour)
    requires 0 <= k.w
    ensures k.Start()[0] + k.Radius() == 0
    ensures 0 <= k.Radius() && (k.w == 0 || k.Radius() < k.w)
  {
  }

  /** Parseval: the image-space weights have unit energy, since each of the
      `w^3` entries has squared magnitude `1 / w^3`. */
  lemma ImageUnitEnergy(k: NearestNeighbour, sqrt: real -> real)
    requires IsSqrt(sqrt)
    requires 1 <= k.w
    ensures var c := k.ImageWeight(sqrt); c * c * (k.w * k.w * k.w) as real == 1.0
  {
    var n := (k.w * k.w * k.w) as real;
    assert 1 <= k.w * k.w * k.w by {
      assert 1 <= k.w * k.w;
    }
    var r := sqrt(n);
    SqrtPositive(sqrt, n);
    assert r * r == n;
    var c := k.ImageWeight(sqrt);
    assert c == 1.0 / r;
    assert c * c == 1.0 / n;
  }
}
