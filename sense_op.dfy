/** The SENSE operator (src/op/sense.cpp): it multiplies an image series by
    each coil's sensitivity map and zero-pads the products to the oversampled
    grid; its adjoint crops the grid back and sums the coil images weighted by
    the conjugate maps.

    Tensors are modelled by their dimensions and their value at every index
    (a function of the index, zero-based, one entry per axis, first axis
    first).  Axis order as in the source: maps are (coil, x, y, z), images
    (frame, x, y, z), and the padded product (coil, frame, x, y, z). */
module SenseOp {
  import Numerics
  import opened Complex

  datatype Tensor = Tensor(dims: seq<int>, at: seq<int> -> Cx)

  /** `idx - off`, axis by axis (axes beyond `off` are left as they are). */
  function Minus(idx: seq<int>, off: seq<int>): (r: seq<int>)
    ensures |r| == |idx| && forall d :: 0 <= d < |idx| ==> r[d] == idx[d] - (if d < |off| then off[d] else 0)
  {
    seq(|idx|, d requires 0 <= d < |idx| => idx[d] - (if d < |off| then off[d] else 0))
  }

  /** `idx + off`, axis by axis. */
  function Plus(idx: seq<int>, off: seq<int>): (r: seq<int>)
    ensures |r| == |idx| && forall d :: 0 <= d < |idx| ==> r[d] == idx[d] + (if d < |off| then off[d] else 0)
  {
    seq(|idx|, d requires 0 <= d < |idx| => idx[d] + (if d < |off| then off[d] else 0))
  }

  /** `idx` lies in the box of extent `ext` whose first corner is `lo`. */
  predicate Inside(idx: seq<int>, lo: seq<int>, ext: seq<int>) {
    |idx| == |lo| == |ext| && forall d :: 0 <= d < |idx| ==> lo[d] <= idx[d] < lo[d] + ext[d]
  }

  /** Eigen's `pad`: `left[d]` zeros before and `right[d]` after axis `d`. */
  function Pad(t: Tensor, left: seq<int>, right: seq<int>): Tensor
    requires |left| == |right| == |t.dims|
  {
    Tensor(
      seq(|t.dims|, d requires 0 <= d < |t.dims| => left[d] + t.dims[d] + right[d]),
      idx => if Inside(idx, left, t.dims) then t.at(Minus(idx, left)) else Zero)
  }

  /** Eigen's `slice`: the box of extent `ext` starting at `off`. */
  function Slice(t: Tensor, off: seq<int>, ext: seq<int>): Tensor {
    Tensor(ext, idx => t.at(Plus(idx, off)))
  }

  /** The elementwise product. */
  function Times(a: Tensor, b: Tensor): Tensor {
    Tensor(a.dims, idx => Mul(a.at(idx), b.at(idx)))
  }

  /** `idx` without its first axis. */
  function DropFirst(idx: seq<int>): seq<int> {
    if |idx| == 0 then [] else idx[1..]
  }

  /** `idx` without its second axis. */
  function DropSecond(idx: seq<int>): seq<int> {
    if |idx| < 2 then idx else [idx[0]] + idx[2..]
  }

  /** The image series reshaped to a leading axis of 1 and broadcast over
      `nC` coils. */
  function OverCoils(x: Tensor, nC: int): Tensor {
    Tensor([nC] + x.dims, idx => x.at(DropFirst(idx)))
  }

  /** The maps reshaped to a second axis of 1 and broadcast over `nV`
      frames. */
  function OverFrames(maps: Tensor, nV: int): Tensor
    requires 1 <= |maps.dims|
  {
    Tensor([maps.dims[0], nV] + maps.dims[1..], idx => maps.at(DropSecond(idx)))
  }

  /** `c(0) + c(1) + ... + c(n - 1)`. */
  function CoilSum(n: int, c: int -> Cx): Cx
    decreases if n < 0 then 0 else n
  {
    if n <= 0 then Zero else Add(CoilSum(n - 1, c), c(n - 1))
  }

  /** Sums of equal terms are equal. */
  lemma {:induction false} CoilSumCongruent(n: int, c: int -> Cx, c': int -> Cx)
    requires forall i :: 0 <= i < n ==> c(i) == c'(i)
    ensures CoilSum(n, c) == CoilSum(n, c')
    decreases if n < 0 then 0 else n
  {
    if n > 0 {
      CoilSumCongruent(n - 1, c, c');
    }
  }

  /** A common factor comes out of a sum. */
  lemma {:induction false} CoilSumFactor(n: int, a: Cx, c: int -> Cx, ac: int -> Cx)
    requires forall i :: 0 <= i < n ==> ac(i) == Mul(a, c(i))
    ensures CoilSum(n, ac) == Mul(a, CoilSum(n, c))
    decreases if n < 0 then 0 else n
  {
    if n <= 0 {
      MulZero(a);
    } else {
      CoilSumFactor(n - 1, a, c, ac);
      MulDistributesOverAdd(a, CoilSum(n - 1, c), c(n - 1));
    }
  }

  /** `ConjugateSum(a, b)`: the sum over the first axis of `a` times the
      conjugate of `b`. */
  function ConjugateSum(a: Tensor, b: Tensor): Tensor
    requires 1 <= |a.dims|
  {
    Tensor(a.dims[1..], idx => CoilSum(a.dims[0], c => Mul(a.at([c] + idx), Conj(b.at([c] + idx)))))
  }

  /** The two margins of an axis of excess `e` (padded minus unpadded size):
      `(e + 1) / 2` before and `e / 2` after, C++ integer division. */
  function Margins(e: int): (m: (int, int))
    ensures m.1 <= m.0 <= m.1 + 1
  {
    (Numerics.CDiv(e + 1, 2), Numerics.CDiv(e, 2))
  }

  /** For a non-negative excess the margins add up to it and an odd excess
      puts its extra sample before. */
  lemma MarginsSplitExcess(e: int)
    requires 0 <= e
    ensures Margins(e).0 + Margins(e).1 == e
    ensures Margins(e).0 == Margins(e).1 || Margins(e).0 == Margins(e).1 + 1
  {
  }

  /** For a negative odd excess truncation toward zero loses one: with
      `e = -3` the margins add to `-2`. */
  lemma MarginsNegativeOdd()
    ensures Margins(-3).0 + Margins(-3).1 == -2
  {
  }

  class Op {
    const maps: Tensor
    const size: seq<int>
    const full: seq<int>
    const left: seq<int>
    const right: seq<int>

    ghost predicate Valid() {
      && |maps.dims| == 4 && |size| == 5 && |full| == 5 && |left| == 5 && |right| == 5
      && size == [maps.dims[0], size[1]] + maps.dims[1..]
      && full[0] == maps.dims[0] && full[1] == size[1]
      && left[0] == 0 && left[1] == 0 && right[0] == 0 && right[1] == 0
      && forall d :: 2 <= d < 5 ==> (left[d], right[d]) == Margins(full[d] - size[d])
    }

    /** The operator for coil maps `maps` and an oversampled grid of
        dimensions `bigSize` (coil, frame, x, y, z). */
    constructor(maps: Tensor, bigSize: seq<int>)
      requires |maps.dims| == 4 && |bigSize| == 5
      ensures Valid()
      ensures this.maps == maps
      ensures size == [maps.dims[0], bigSize[1], maps.dims[1], maps.dims[2], maps.dims[3]]
      ensures full == [maps.dims[0]] + bigSize[1..]
      ensures forall d :: 2 <= d < 5 ==> (left[d], right[d]) == Margins(full[d] - size[d])
    {
      this.maps := maps;
      var s := [maps.dims[0], bigSize[1], maps.dims[1], maps.dims[2], maps.dims[3]];
      var f := [maps.dims[0], bigSize[1], bigSize[2], bigSize[3], bigSize[4]];
      size := s;
      full := f;
      left := [0, 0, Numerics.CDiv(f[2] - s[2] + 1, 2), Numerics.CDiv(f[3] - s[3] + 1, 2), Numerics.CDiv(f[4] - s[4] + 1, 2)];
      right := [0, 0, Numerics.CDiv(f[2] - s[2], 2), Numerics.CDiv(f[3] - s[3], 2), Numerics.CDiv(f[4] - s[4], 2)];
    }

    /** The number of coils: the leading extent of both the image and the
        grid dimensions. */
    function Channels(): (n: int)
      requires Valid()
      ensures n == size[0] && n == full[0]
    {
      maps.dims[0]
    }

    /** The image series the operator takes: frames, then the maps' grid. */
    function InputDimensions(): (d: seq<int>)
      requires Valid()
      ensures |d| == 4 && d[0] == size[1] && d[1..] == maps.dims[1..]
    {
      size[1..]
    }

    /** The grid: coils, the input's frames, then the oversampled axes, each
        of which pads the maps' extent by its two margins when the grid is
        at least as large. */
    function OutputDimensions(): (d: seq<int>)
      requires Valid()
      ensures |d| == 5 && d[0] == Channels() && d[1] == InputDimensions()[0]
      ensures d[2..] == full[2..]
      ensures forall k :: 2 <= k < 5 && size[k] <= full[k] ==> d[k] == left[k] + size[k] + right[k]
    {
      full
    }

    /** `A`: each frame times each coil's map, zero-padded by the margins. */
    function A(x: Tensor): (y: Tensor)
      requires Valid() && |x.dims| == 4 && x.dims[1..] == maps.dims[1..]
      ensures |y.dims| == 5 && y.dims[0] == Channels() && y.dims[1] == x.dims[0]
      ensures forall d :: 2 <= d < 5 ==> y.dims[d] == left[d] + maps.dims[d - 1] + right[d]
    {
      Pad(Times(OverCoils(x, maps.dims[0]), OverFrames(maps, x.dims[0])), left, right)
    }

    /** The dimensions `Adj` accepts (lines 82-86): coils, the operator's
        frames, and on each spatial axis the map's extent plus both margins
        of that axis. */
    predicate AdjShape(y: Tensor)
      requires Valid()
    {
      && |y.dims| == 5 && y.dims[0] == maps.dims[0] && y.dims[1] == size[1]
      && forall d :: 2 <= d < 5 ==> y.dims[d] == maps.dims[d - 1] + left[d] + right[d]
    }

    /** Lines 82-86 as written: the axis-2 check adds `right_[4]` where `A`'s
        check (line 50) adds `right_[2]`. */
    predicate AdjShapeAsWritten(y: Tensor)
      requires Valid()
    {
      && |y.dims| == 5 && y.dims[0] == maps.dims[0] && y.dims[1] == size[1]
      && y.dims[2] == maps.dims[1] + left[2] + right[4]
      && y.dims[3] == maps.dims[2] + left[3] + right[3]
      && y.dims[4] == maps.dims[3] + left[4] + right[4]
    }

    /** `Adj`: the unpadded interior, summed over coils against the
        conjugate maps. */
    function Adj(y: Tensor): (x: Tensor)
      requires Valid() && AdjShape(y)
      ensures x.dims == [y.dims[1]] + maps.dims[1..]
    {
      ConjugateSum(Slice(y, left, size), OverFrames(maps, size[1]))
    }

    /** `AdjA`: the input itself. */
    function AdjA(x: Tensor): Tensor {
      x
    }

    /** The index of the padded grid that holds interior sample `q` of coil
        `c` and frame `v`. */
    function Padded(c: int, v: int, q: seq<int>): seq<int>
      requires Valid()
    {
      Plus([c, v] + q, left)
    }

    /** `q` indexes a voxel of the maps' grid. */
    predicate InGrid(q: seq<int>)
      requires Valid()
    {
      |q| == 3 && forall d :: 0 <= d < 3 ==> 0 <= q[d] < maps.dims[d + 1]
    }

    /** `A(x)` holds frame `v` of `x` times map `c` at the padded position of
        each interior voxel. */
    lemma APointwise(x: Tensor, c: int, v: int, q: seq<int>)
      requires Valid() && |x.dims| == 4 && x.dims[1..] == maps.dims[1..]
      requires 0 <= c < maps.dims[0] && 0 <= v < x.dims[0] && InGrid(q)
      ensures A(x).at(Padded(c, v, q)) == Mul(x.at([v] + q), maps.at([c] + q))
    {
      var idx := Padded(c, v, q);
      var t := Times(OverCoils(x, maps.dims[0]), OverFrames(maps, x.dims[0]));
      assert t.dims == [maps.dims[0]] + x.dims;
      assert Inside(idx, left, t.dims);
      assert Minus(idx, left) == [c, v] + q;
      assert DropFirst([c, v] + q) == [v] + q;
      assert DropSecond([c, v] + q) == [c] + q;
    }

    /** Every entry of `A(x)` outside the interior box is zero. */
    lemma AZeroOutside(x: Tensor, idx: seq<int>)
      requires Valid() && |x.dims| == 4 && x.dims[1..] == maps.dims[1..]
      requires !Inside(idx, left, [maps.dims[0]] + x.dims)
      ensures A(x).at(idx) == Zero
    {
    }

    /** With non-negative margins `A` takes a tensor of `InputDimensions()`
        to one of `OutputDimensions()`, the padded grid. */
    lemma ADims(x: Tensor)
      requires Valid() && |x.dims| == 4 && x.dims[1..] == maps.dims[1..]
      requires x.dims == InputDimensions() && full[1] == size[1] && full[0] == size[0]
      requires forall d :: 2 <= d < 5 ==> size[d] <= full[d] && (left[d], right[d]) == Margins(full[d] - size[d])
      ensures A(x).dims == OutputDimensions()
    {
      forall d | 2 <= d < 5
        ensures left[d] + size[d] + right[d] == full[d]
      {
        MarginsSplitExcess(full[d] - size[d]);
      }
    }

    /** What `A` produces `Adj` accepts; the check as written rejects it
        whenever the margins after axes 2 and 4 differ, as for maps of
        8 x 8 x 8 voxels on a grid of 10 x 10 x 12 (margins 1 and 2). */
    lemma AShapeFitsAdj(x: Tensor)
      requires Valid() && |x.dims| == 4 && x.dims[1..] == maps.dims[1..] && x.dims[0] == size[1]
      ensures AdjShape(A(x))
      ensures right[2] != right[4] ==> !AdjShapeAsWritten(A(x))
    {
    }

    /** Maps of 8 x 8 x 8 voxels on a grid of 10 x 10 x 12 have right
        margins 1 on axis 2 and 2 on axis 4, so the check as written rejects
        what `A` produces. */
    lemma AdjRejectsExample(x: Tensor)
      requires Valid() && maps.dims[1..] == [8, 8, 8] && full[2..] == [10, 10, 12]
      requires |x.dims| == 4 && x.dims[1..] == maps.dims[1..] && x.dims[0] == size[1]
      ensures right[2] == 1 && right[4] == 2
      ensures AdjShape(A(x)) && !AdjShapeAsWritten(A(x))
    {
      assert full[2] - size[2] == 2 && full[4] - size[4] == 4;
      AShapeFitsAdj(x);
    }

    /** `Adj(y)` at frame `v` and voxel `q` sums, over coils, the padded
        sample times the conjugate map. */
    lemma AdjPointwise(y: Tensor, v: int, q: seq<int>)
      requires Valid() && AdjShape(y) && |q| == 3
      ensures Adj(y).at([v] + q) == CoilSum(maps.dims[0], c => Mul(y.at(Padded(c, v, q)), Conj(maps.at([c] + q))))
    {
      var s := Slice(y, left, size);
      var m := OverFrames(maps, size[1]);
      forall c | 0 <= c < maps.dims[0]
        ensures Mul(s.at([c] + ([v] + q)), Conj(m.at([c] + ([v] + q))))
             == Mul(y.at(Padded(c, v, q)), Conj(maps.at([c] + q)))
      {
        assert [c] + ([v] + q) == [c, v] + q;
        assert DropSecond([c, v] + q) == [c] + q;
      }
      CoilSumCongruent(maps.dims[0],
        c => Mul(s.at([c] + ([v] + q)), Conj(m.at([c] + ([v] + q)))),
        c => Mul(y.at(Padded(c, v, q)), Conj(maps.at([c] + q))));
    }

    /** `Adj` reads only the interior: grids that agree there have the same
        adjoint. */
    lemma AdjIgnoresPadding(y: Tensor, y': Tensor, v: int, q: seq<int>)
      requires Valid() && AdjShape(y) && AdjShape(y') && |q| == 3
      requires forall c :: 0 <= c < maps.dims[0] ==> y.at(Padded(c, v, q)) == y'.at(Padded(c, v, q))
      ensures Adj(y).at([v] + q) == Adj(y').at([v] + q)
    {
      AdjPointwise(y, v, q);
      AdjPointwise(y', v, q);
      CoilSumCongruent(maps.dims[0],
        c => Mul(y.at(Padded(c, v, q)), Conj(maps.at([c] + q))),
        c => Mul(y'.at(Padded(c, v, q)), Conj(maps.at([c] + q))));
    }

    /** The sum of squared map magnitudes at voxel `q`. */
    function Energy(q: seq<int>): Cx
      requires Valid()
    {
      CoilSum(maps.dims[0], c => Mul(maps.at([c] + q), Conj(maps.at([c] + q))))
    }

    /** `Adj(A(x))` is `x` weighted by the maps' energy at each voxel. */
    lemma AdjAfterA(x: Tensor, v: int, q: seq<int>)
      requires Valid() && |x.dims| == 4 && x.dims[1..] == maps.dims[1..] && x.dims[0] == size[1]
      requires 0 <= v < x.dims[0] && InGrid(q)
      ensures Adj(A(x)).at([v] + q) == Mul(x.at([v] + q), Energy(q))
    {
      AShapeFitsAdj(x);
      AdjPointwise(A(x), v, q);
      var a := x.at([v] + q);
      forall c | 0 <= c < maps.dims[0]
        ensures Mul(A(x).at(Padded(c, v, q)), Conj(maps.at([c] + q)))
             == Mul(a, Mul(maps.at([c] + q), Conj(maps.at([c] + q))))
      {
        APointwise(x, c, v, q);
        MulAssociates(a, maps.at([c] + q), Conj(maps.at([c] + q)));
      }
      CoilSumFactor(maps.dims[0], a,
        c => Mul(maps.at([c] + q), Conj(maps.at([c] + q))),
        c => Mul(A(x).at(Padded(c, v, q)), Conj(maps.at([c] + q))));
    }

    /** `AdjA` returns its input unchanged, which is `Adj(A(x))` exactly
        when the maps are normalised to unit energy at every voxel. */
    lemma AdjAMatchesNormalisedMaps(x: Tensor, v: int, q: seq<int>)
      requires Valid() && |x.dims| == 4 && x.dims[1..] == maps.dims[1..] && x.dims[0] == size[1]
      requires 0 <= v < x.dims[0] && InGrid(q)
      requires Energy(q) == One
      ensures Adj(A(x)).at([v] + q) == AdjA(x).at([v] + q)
    {
      AShapeFitsAdj(x);
      AdjAfterA(x, v, q);
      MulOne(x.at([v] + q));
    }
  }
}
