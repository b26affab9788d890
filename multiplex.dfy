/** The multiplexing operator (`TOps::Multiplex`, cxx/vineyard/op/multiplex.hpp):
    it cuts the last axis of its input into `nSlab` equal slabs and stacks them
    along a new trailing axis.

    Only the last axis takes part, so the model collapses all leading axes into
    the element type `T`: an input is an array of `n` blocks along the last
    axis, and an output is a two-dimensional array whose entry `[k, sl]` is
    block `k` of slab `sl`.  The slab width is `w = n / nSlab`. */
module Multiplex {
  import opened Numerics

  /** The output shape: the leading dimensions, then `n / nSlab`, then `nSlab`. */
  function OutShape(ish: seq<nat>, nSlab: nat): (osh: seq<nat>)
    requires |ish| >= 1 && nSlab > 0
    ensures |osh| == |ish| + 1
    ensures osh[..|ish| - 1] == ish[..|ish| - 1]
    ensures osh[|ish| - 1] * nSlab <= ish[|ish| - 1] < (osh[|ish| - 1] + 1) * nSlab
    ensures osh[|ish|] == nSlab
  {
    ish[..|ish| - 1] + [ish[|ish| - 1] / nSlab, nSlab]
  }

  /** The last-axis offset of slab `sl` when slabs have width `w`: the source
      starts at zero and advances by `w` per slab. */
  function Offset(sl: nat, w: nat): nat {
    if sl == 0 then 0 else Offset(sl - 1, w) + w
  }

  lemma {:induction false} OffsetIsProduct(sl: nat, w: nat)
    ensures Offset(sl, w) == sl * w
  {
    if sl > 0 {
      OffsetIsProduct(sl - 1, w);
    }
  }

  /** Later slabs start no earlier than the end of earlier ones. */
  lemma {:induction false} OffsetMonotone(a: nat, b: nat, w: nat)
    requires a < b
    ensures Offset(a, w) + w <= Offset(b, w)
  {
    if a < b - 1 {
      OffsetMonotone(a, b - 1, w);
    }
  }

  /** `nSlab` slabs of width `n / nSlab` fit in `n` blocks, exactly when
      `nSlab` divides `n`. */
  lemma WidthFits(n: nat, nSlab: nat)
    requires nSlab > 0
    ensures Offset(nSlab, n / nSlab) <= n
    ensures Offset(nSlab, n / nSlab) == n <==> n % nSlab == 0
  {
    var w, r := n / nSlab, n % nSlab;
    OffsetIsProduct(nSlab, w);
    assert n == nSlab * w + r && 0 <= r;
  }

  /** Slab `sl` of width `w` lies inside the first `nSlab` slabs. */
  lemma SlabBound(nSlab: nat, w: nat, sl: nat)
    requires sl < nSlab
    ensures Offset(sl, w) + w <= Offset(nSlab, w)
  {
    OffsetMonotone(sl, nSlab, w);
  }

  /** The last-axis range `[Offset(sl, w), Offset(sl, w) + w)` of `x`. */
  function Slab<T>(x: seq<T>, w: nat, sl: nat): (y: seq<T>)
    requires Offset(sl, w) + w <= |x|
    ensures |y| == w
    ensures forall k :: 0 <= k < w ==> y[k] == x[Offset(sl, w) + k]
  {
    x[Offset(sl, w) .. Offset(sl, w) + w]
  }

  /** Every one of the first `nSlab` slabs ends by `Offset(nSlab, w)`. */
  lemma SlabsInside(nSlab: nat, w: nat)
    ensures forall sl :: 0 <= sl < nSlab ==> Offset(sl, w) + w <= Offset(nSlab, w)
  {
    forall sl | 0 <= sl < nSlab
      ensures Offset(sl, w) + w <= Offset(nSlab, w)
    {
      SlabBound(nSlab, w, sl);
    }
  }

  /** What `forward` produces, slab by slab: entry `k` of slab `sl` is
      block `Offset(sl, w) + k` of `x`. */
  function Slabs<T>(x: seq<T>, nSlab: nat, w: nat): (ys: seq<seq<T>>)
    requires Offset(nSlab, w) <= |x|
    ensures |ys| == nSlab
    ensures forall sl :: 0 <= sl < nSlab ==> |ys[sl]| == w
    ensures forall sl, k :: 0 <= sl < nSlab && 0 <= k < w ==>
      Offset(sl, w) + k < |x| && ys[sl][k] == x[Offset(sl, w) + k]
  {
    SlabsInside(nSlab, w);
    seq(nSlab, (sl: int) requires 0 <= sl < nSlab =>
      SlabBound(nSlab, w, sl);
      Slab(x, w, sl))
  }

  /** The slabs laid end to end. */
  function Flatten<T>(ys: seq<seq<T>>): seq<T> {
    if |ys| == 0 then [] else Flatten(ys[..|ys| - 1]) + ys[|ys| - 1]
  }

  lemma {:induction false} FlattenLength<T>(ys: seq<seq<T>>, w: nat)
    requires forall sl :: 0 <= sl < |ys| ==> |ys[sl]| == w
    ensures |Flatten(ys)| == Offset(|ys|, w)
  {
    if |ys| > 0 {
      FlattenLength(ys[..|ys| - 1], w);
    }
  }

  /** What `adjoint` leaves in an output buffer that held `x0`: the slabs
      laid end to end (`FlattenSlab` locates each one), then the old
      contents of the trailing blocks. */
  function Unslab<T>(ys: seq<seq<T>>, w: nat, x0: seq<T>): (x: seq<T>)
    requires forall sl :: 0 <= sl < |ys| ==> |ys[sl]| == w
    requires Offset(|ys|, w) <= |x0|
    ensures |x| == |x0|
    ensures x[Offset(|ys|, w)..] == x0[Offset(|ys|, w)..]
  {
    FlattenLength(ys, w);
    Flatten(ys) + x0[Offset(|ys|, w)..]
  }

  /** Slab `sl` of the flattened slabs is `ys[sl]`. */
  lemma {:induction false} FlattenSlab<T>(ys: seq<seq<T>>, w: nat, sl: nat)
    requires forall i :: 0 <= i < |ys| ==> |ys[i]| == w
    requires sl < |ys|
    ensures |Flatten(ys)| == Offset(|ys|, w) && Offset(sl, w) + w <= Offset(|ys|, w)
    ensures Flatten(ys)[Offset(sl, w) .. Offset(sl, w) + w] == ys[sl]
  {
    FlattenLength(ys, w);
    SlabBound(|ys|, w, sl);
    var init := ys[..|ys| - 1];
    FlattenLength(init, w);
    assert Flatten(ys) == Flatten(init) + ys[|ys| - 1];
    if sl < |ys| - 1 {
      FlattenSlab(init, w, sl);
    }
  }

  /** The first `nSlab` slabs of `x`, laid end to end, are its first
      `Offset(nSlab, w)` blocks: slab offsets advance by exactly one width,
      so the slabs neither overlap nor leave a gap. */
  lemma {:induction false} FlattenSlabs<T>(x: seq<T>, nSlab: nat, w: nat)
    requires Offset(nSlab, w) <= |x|
    ensures Flatten(Slabs(x, nSlab, w)) == x[..Offset(nSlab, w)]
  {
    if nSlab > 0 {
      var n := nSlab - 1;
      FlattenSlabs(x, n, w);
      var ys := Slabs(x, nSlab, w);
      assert ys[..n] == Slabs(x, n, w);
      assert x[..Offset(nSlab, w)] == x[..Offset(n, w)] + Slab(x, w, n);
    }
  }

  /** Every position below `nSlab * w` lies in exactly one slab, `j / w`. */
  lemma SlabsPartition(nSlab: nat, w: nat, j: nat, sl: nat)
    requires j < nSlab * w && sl < nSlab
    ensures Offset(sl, w) <= j < Offset(sl, w) + w <==> sl == j / w
  {
    OffsetIsProduct(sl, w);
    DivBelow(j, w, nSlab);
    if sl * w <= j < sl * w + w {
      DivModUnique(sl, j - sl * w, w);
    }
  }

  /** `adjoint` undoes `forward` on the blocks `forward` reads and never writes
      the trailing `n - nSlab * w` blocks; when `nSlab` divides `n` it undoes
      `forward` entirely. */
  lemma AdjointAfterForward<T>(x: seq<T>, x0: seq<T>, nSlab: nat)
    requires nSlab > 0 && |x0| == |x|
    ensures var w := |x| / nSlab;
      && Offset(nSlab, w) <= |x|
      && Unslab(Slabs(x, nSlab, w), w, x0) == x[..Offset(nSlab, w)] + x0[Offset(nSlab, w)..]
      && (|x| % nSlab == 0 ==> Unslab(Slabs(x, nSlab, w), w, x0) == x)
  {
    var w := |x| / nSlab;
    WidthFits(|x|, nSlab);
    FlattenSlabs(x, nSlab, w);
  }

  /** `forward` recovers every slab that `adjoint` wrote. */
  lemma ForwardAfterAdjoint<T>(ys: seq<seq<T>>, w: nat, x0: seq<T>)
    requires forall sl :: 0 <= sl < |ys| ==> |ys[sl]| == w
    requires Offset(|ys|, w) <= |x0|
    ensures Slabs(Unslab(ys, w, x0), |ys|, w) == ys
  {
    var x := Unslab(ys, w, x0);
    FlattenLength(ys, w);
    forall sl | 0 <= sl < |ys| ensures Slabs(x, |ys|, w)[sl] == ys[sl] {
      FlattenSlab(ys, w, sl);
      assert Slab(x, w, sl) == Flatten(ys)[Offset(sl, w) .. Offset(sl, w) + w];
    }
  }

  /** `forward` reads nothing beyond the first `nSlab` slabs. */
  lemma ForwardIgnoresTail<T>(x: seq<T>, x': seq<T>, nSlab: nat, w: nat)
    requires Offset(nSlab, w) <= |x| && Offset(nSlab, w) <= |x'|
    requires x[..Offset(nSlab, w)] == x'[..Offset(nSlab, w)]
    ensures Slabs(x, nSlab, w) == Slabs(x', nSlab, w)
  {
    FlattenSlabs(x, nSlab, w);
    FlattenSlabs(x', nSlab, w);
    forall sl | 0 <= sl < nSlab ensures Slabs(x, nSlab, w)[sl] == Slabs(x', nSlab, w)[sl] {
      FlattenSlab(Slabs(x, nSlab, w), w, sl);
      FlattenSlab(Slabs(x', nSlab, w), w, sl);
    }
  }

  /** `forward`: copies slab `sl` of `x` into column `sl` of `y`, advancing
      the slab offset `st` by one slab width per slab. */
  method Forward<T>(x: array<T>, nSlab: nat, y: array2<T>)
    requires nSlab > 0
    requires y.Length0 == x.Length / nSlab && y.Length1 == nSlab
    modifies y
    ensures Offset(nSlab, y.Length0) <= x.Length
    ensures forall sl, k :: 0 <= sl < nSlab && 0 <= k < y.Length0 ==>
      y[k, sl] == Slabs(old(x[..]), nSlab, y.Length0)[sl][k]
  {
    var sz := x.Length / nSlab;
    WidthFits(x.Length, nSlab);
    ghost var xs := x[..];
    forall i | 0 <= i < nSlab ensures Offset(i, sz) + sz <= |xs| {
      SlabBound(nSlab, sz, i);
    }
    var st := 0;
    var sl := 0;
    while sl < nSlab
      invariant 0 <= sl <= nSlab
      invariant st == Offset(sl, sz)
      invariant forall i, k :: 0 <= i < sl && 0 <= k < sz ==> y[k, i] == xs[Offset(i, sz) + k]
    {
      SlabBound(nSlab, sz, sl);
      CopySlab(x, y, sl, st);
      st := st + sz;
      sl := sl + 1;
    }
    ghost var ys := Slabs(xs, nSlab, sz);
  }

  /** The inner loop of `forward`: copies the `y.Length0` entries of `x`
      from `st` on into column `sl` of `y`, leaving the other columns. */
  method CopySlab<T>(x: array<T>, y: array2<T>, sl: nat, st: nat)
    requires sl < y.Length1 && st + y.Length0 <= x.Length
    modifies y
    ensures forall i, k :: 0 <= i < y.Length1 && 0 <= k < y.Length0 ==>
      y[k, i] == if i == sl then x[st + k] else old(y[k, i])
  {
    var k := 0;
    while k < y.Length0
      invariant 0 <= k <= y.Length0
      invariant forall i, k' :: 0 <= i < y.Length1 && 0 <= k' < y.Length0 ==>
        y[k', i] == if i == sl && k' < k then x[st + k'] else old(y[k', i])
    {
      y[k, sl] := x[st + k];
      k := k + 1;
    }
  }

  /** The inner loop of `adjoint`: writes column `sl` of `y` into `x` from
      `st` on, leaving the rest of `x`. */
  method WriteSlab<T>(y: array2<T>, sl: nat, x: array<T>, st: nat)
    requires sl < y.Length1 && st + y.Length0 <= x.Length
    modifies x
    ensures forall j :: 0 <= j < x.Length ==>
      x[j] == if st <= j < st + y.Length0 then y[j - st, sl] else old(x[j])
  {
    var k := 0;
    while k < y.Length0
      invariant 0 <= k <= y.Length0
      invariant forall j :: 0 <= j < x.Length ==>
        x[j] == if st <= j < st + k then y[j - st, sl] else old(x[j])
    {
      x[st + k] := y[k, sl];
      k := k + 1;
    }
  }

  /** Writing slab `sl` right after the first `sl` slabs extends the
      written prefix by that slab and leaves the rest as it was. */
  lemma SlabAppended<T>(x: seq<T>, before: seq<T>, x0: seq<T>, cols: seq<seq<T>>, sl: nat, st: nat, w: nat)
    requires sl < |cols| && |cols[sl]| == w && st + w <= |x| == |before| == |x0|
    requires before[..st] == Flatten(cols[..sl]) && before[st..] == x0[st..]
    requires forall j :: 0 <= j < |x| ==> x[j] == if st <= j < st + w then cols[sl][j - st] else before[j]
    ensures x[..st + w] == Flatten(cols[..sl + 1]) && x[st + w..] == x0[st + w..]
  {
    assert x[..st] == before[..st];
    assert x[st..st + w] == cols[sl];
    assert x[..st + w] == x[..st] + x[st..st + w];
    assert cols[..sl + 1][..sl] == cols[..sl];
    assert x[st + w..] == before[st + w..];
  }

  /** The slabs held in the columns of `y`. */
  ghost function Columns<T>(y: array2<T>): (ys: seq<seq<T>>)
    reads y
    ensures |ys| == y.Length1
    ensures forall sl :: 0 <= sl < y.Length1 ==> |ys[sl]| == y.Length0
    ensures forall sl, k :: 0 <= sl < y.Length1 && 0 <= k < y.Length0 ==> ys[sl][k] == y[k, sl]
  {
    seq(y.Length1, (sl: int) requires 0 <= sl < y.Length1 reads y =>
      seq(y.Length0, (k: int) requires 0 <= k < y.Length0 reads y => y[k, sl]))
  }

  /** `adjoint`: writes column `sl` of `y` back into `x` at the offset of slab
      `sl`; the blocks of `x` past the last slab keep their values. */
  method Adjoint<T>(y: array2<T>, nSlab: nat, x: array<T>)
    requires nSlab > 0
    requires y.Length0 == x.Length / nSlab && y.Length1 == nSlab
    modifies x
    ensures Offset(nSlab, y.Length0) <= x.Length
    ensures x[..] == Unslab(Columns(y), y.Length0, old(x[..]))
  {
    var sz := x.Length / nSlab;
    WidthFits(x.Length, nSlab);
    ghost var cols := Columns(y);
    ghost var x0 := x[..];
    var st := 0;
    var sl := 0;
    while sl < nSlab
      invariant 0 <= sl <= nSlab
      invariant st == Offset(sl, sz) && st <= x.Length
      invariant x[..st] == Flatten(cols[..sl])
      invariant x[st..] == x0[st..]
    {
      SlabBound(nSlab, sz, sl);
      ghost var before := x[..];
      WriteSlab(y, sl, x, st);
      SlabAppended(x[..], before, x0, cols, sl, st, sz);
      st := st + sz;
      sl := sl + 1;
    }
    assert cols[..nSlab] == cols;
    assert x[..] == x[..st] + x[st..];
  }
}
